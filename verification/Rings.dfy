/** Ring buffers: a queue kept in a fixed buffer from a head position on, around
    the end. The command queue, the MIDI output queues and the protocol's event
    ring of firmware/src are such buffers. */
module Rings {

  predicate InRing<T>(buffer: seq<T>, head: nat, count: nat) {
    |buffer| > 0 && head < |buffer| && count <= |buffer|
  }

  /** The place of index i. */
  function At(size: nat, head: nat, i: nat): (at: nat)
    requires head < size
    ensures at < size
  {
    (head + i) % size
  }

  /** The queue. */
  function Ring<T>(buffer: seq<T>, head: nat, count: nat): (q: seq<T>)
    requires InRing(buffer, head, count)
    ensures |q| == count
  {
    seq(count, i requires 0 <= i < count => buffer[At(|buffer|, head, i)])
  }

  lemma Wrap(x: nat, size: nat)
    requires size > 0 && x < 2 * size
    ensures x % size == if x < size then x else x - size
  {
    if x >= size { assert (x - size + size) % size == (x - size) % size by { Shift(x - size, size); } }
  }

  lemma Shift(y: nat, size: nat)
    requires size > 0 && y < size
    ensures (y + size) % size == y
  {
    var q, r := (y + size) / size, (y + size) % size;
    assert y + size == q * size + r;
    assert q >= 2 ==> q * size >= 2 * size;
    assert q == 0 ==> q * size == 0;
    assert q == 1;
  }

  lemma RingAt<T>(buffer: seq<T>, head: nat, count: nat, i: nat)
    requires InRing(buffer, head, count) && i < count
    ensures Ring(buffer, head, count)[i] == buffer[At(|buffer|, head, i)]
  {
  }

  /** A buffer after list was written from start on, around the end. */
  function Written<T>(buffer: seq<T>, start: nat, list: seq<T>): (w: seq<T>)
    requires start < |buffer|
    ensures |w| == |buffer|
  {
    if list == [] then buffer
    else Written(buffer, start, list[..|list| - 1])[At(|buffer|, start, |list| - 1) := list[|list| - 1]]
  }

  lemma Places(size: nat, start: nat, i: nat, j: nat)
    requires start < size && i < size && j < size
    ensures At(size, start, i) == At(size, start, j) <==> i == j
  {
    Wrap(start + i, size);
    Wrap(start + j, size);
  }

  lemma {:induction false} WrittenAt<T>(buffer: seq<T>, start: nat, list: seq<T>, k: nat)
    requires start < |buffer| && |list| <= |buffer| && k < |buffer|
    ensures Written(buffer, start, list)[At(|buffer|, start, k)] ==
            if k < |list| then list[k] else buffer[At(|buffer|, start, k)]
  {
    hide At;
    if list != [] {
      var last := |list| - 1;
      WrittenAt(buffer, start, list[..last], k);
      Places(|buffer|, start, k, last);
    }
  }

  /** Where a queue's next element goes, seen from the head. */
  lemma Tail(size: nat, head: nat, count: nat, i: nat)
    requires head < size && count < size && i < size
    ensures i < count ==> At(size, head, i) == At(size, At(size, head, count), size - count + i)
    ensures i >= count ==> At(size, head, i) == At(size, At(size, head, count), i - count)
  {
    Wrap(head + count, size);
    Wrap(head + i, size);
    if i < count { Wrap(At(size, head, count) + (size - count + i), size); }
    else { Wrap(At(size, head, count) + (i - count), size); }
  }

  lemma AppendedAt<T>(was: seq<T>, head: nat, count: nat, list: seq<T>, i: nat)
    requires InRing(was, head, count) && 0 < |list| && i < count + |list| <= |was|
    ensures Written(was, At(|was|, head, count), list)[At(|was|, head, i)] == (Ring(was, head, count) + list)[i]
  {
    hide Written, At, Ring;
    Tail(|was|, head, count, i);
    WrittenAt(was, At(|was|, head, count), list, if i < count then |was| - count + i else i - count);
    if i < count { RingAt(was, head, count, i); }
  }

  /** q, laid out from start on. */
  ghost predicate LaidOut<T>(buffer: seq<T>, start: nat, q: seq<T>)
    requires start < |buffer|
  {
    forall i | 0 <= i < |q| :: buffer[At(|buffer|, start, i)] == q[i]
  }

  /** A queue is known by its elements. */
  lemma SameQueue<T>(buffer: seq<T>, head: nat, count: nat, q: seq<T>)
    requires InRing(buffer, head, count) && |q| == count && LaidOut(buffer, head, q)
    ensures Ring(buffer, head, count) == q
  {
    hide At;
  }

  lemma AppendedAll<T>(was: seq<T>, head: nat, count: nat, list: seq<T>)
    requires InRing(was, head, count) && 0 < |list| && count + |list| <= |was|
    ensures LaidOut(Written(was, At(|was|, head, count), list), head, Ring(was, head, count) + list)
  {
    hide Written, At, Ring;
    var now, q := Written(was, At(|was|, head, count), list), Ring(was, head, count) + list;
    forall i | 0 <= i < |q| ensures now[At(|now|, head, i)] == q[i] {
      AppendedAt(was, head, count, list, i);
    }
  }

  /** Writing a list behind the queue appends it. */
  lemma Appended<T>(was: seq<T>, head: nat, count: nat, list: seq<T>)
    requires InRing(was, head, count) && count + |list| <= |was|
    ensures Ring(Written(was, At(|was|, head, count), list), head, count + |list|) == Ring(was, head, count) + list
  {
    hide Written, At, Ring, LaidOut;
    if |list| == 0 {
      NothingWritten(was, At(|was|, head, count), list);
      NothingAdded(Ring(was, head, count), list);
    } else {
      AppendedAll(was, head, count, list);
      SameQueue(Written(was, At(|was|, head, count), list), head, count + |list|, Ring(was, head, count) + list);
    }
  }

  lemma NothingAdded<T>(q: seq<T>, list: seq<T>)
    requires |list| == 0
    ensures q + list == q
  {
  }

  lemma NothingWritten<T>(was: seq<T>, start: nat, list: seq<T>)
    requires start < |was| && |list| == 0
    ensures Written(was, start, list) == was
  {
  }

  /** The place n before the head. */
  function Before(size: nat, head: nat, n: nat): (at: nat)
    requires head < size && n <= size
    ensures at < size
  {
    (head + size - n) % size
  }

  lemma Behind(size: nat, head: nat, n: nat, i: nat)
    requires head < size && n <= i < size
    ensures At(size, Before(size, head, n), i) == At(size, head, i - n)
  {
    Wrap(head + size - n, size);
    Wrap(Before(size, head, n) + i, size);
    Wrap(head + (i - n), size);
  }

  lemma PrependedAt<T>(was: seq<T>, head: nat, count: nat, list: seq<T>, i: nat)
    requires InRing(was, head, count) && i < count + |list| <= |was|
    ensures Written(was, Before(|was|, head, |list|), list)[At(|was|, Before(|was|, head, |list|), i)]
         == (list + Ring(was, head, count))[i]
  {
    hide Written, At, Ring, Before;
    WrittenAt(was, Before(|was|, head, |list|), list, i);
    if i >= |list| {
      Behind(|was|, head, |list|, i);
      RingAt(was, head, count, i - |list|);
    }
  }

  lemma PrependedAll<T>(was: seq<T>, head: nat, count: nat, list: seq<T>)
    requires InRing(was, head, count) && count + |list| <= |was|
    ensures LaidOut(Written(was, Before(|was|, head, |list|), list), Before(|was|, head, |list|),
                    list + Ring(was, head, count))
  {
    hide Written, At, Ring, Before;
    var start := Before(|was|, head, |list|);
    var now, q := Written(was, start, list), list + Ring(was, head, count);
    forall i | 0 <= i < |q| ensures now[At(|now|, start, i)] == q[i] {
      PrependedAt(was, head, count, list, i);
    }
  }

  /** Writing a list before the queue prepends it. */
  lemma Prepended<T>(was: seq<T>, head: nat, count: nat, list: seq<T>)
    requires InRing(was, head, count) && count + |list| <= |was|
    ensures Ring(Written(was, Before(|was|, head, |list|), list), Before(|was|, head, |list|), count + |list|)
         == list + Ring(was, head, count)
  {
    hide Written, At, Ring, Before, LaidOut;
    var start := Before(|was|, head, |list|);
    PrependedAll(was, head, count, list);
    SameQueue(Written(was, start, list), start, count + |list|, list + Ring(was, head, count));
  }

  /** Moving the head on takes the first elements off. */
  lemma Dropped<T>(buffer: seq<T>, head: nat, count: nat, n: nat)
    requires InRing(buffer, head, count) && n <= count
    ensures Ring(buffer, At(|buffer|, head, n), count - n) == Ring(buffer, head, count)[n..]
  {
    hide Ring, At;
    var start, q := At(|buffer|, head, n), Ring(buffer, head, count)[n..];
    forall i | 0 <= i < count - n ensures buffer[At(|buffer|, start, i)] == q[i] {
      RingAt(buffer, head, count, n + i);
      Step(|buffer|, head, n, i);
    }
    SameQueue(buffer, start, count - n, q);
  }

  lemma Step(size: nat, head: nat, n: nat, i: nat)
    requires head < size && n <= size && i < size && n + i < size
    ensures At(size, At(size, head, n), i) == At(size, head, n + i)
  {
    Wrap(head + n, size);
    Wrap(At(size, head, n) + i, size);
    Wrap(head + (n + i), size);
  }
}
