/**
 The window of in-flight append messages: a ring over a buffer that grows on demand,
 proved to be a bounded first-in first-out queue.
 */
module InflightRing {

  /** What `FreeLE` leaves: the longest prefix of elements up to `to` is dropped. */
  function DropLE(s: seq<nat>, to: nat): seq<nat> {
    if s == [] || to < s[0] then s else DropLE(s[1..], to)
  }

  ghost predicate Increasing(s: seq<nat>) {
    forall a, b :: 0 <= a < b < |s| ==> s[a] < s[b]
  }

  /** The number of leading elements that `FreeLE` passes over. */
  function Passed(s: seq<nat>, to: nat): (n: nat)
    ensures n <= |s|
    ensures forall a :: 0 <= a < n ==> s[a] <= to
    ensures n < |s| ==> to < s[n]
    ensures DropLE(s, to) == s[n..]
  {
    if s == [] || to < s[0] then 0 else 1 + Passed(s[1..], to)
  }

  /** On an increasing queue exactly the elements up to `to` go, and the rest keep their order. */
  lemma DropLEExact(s: seq<nat>, to: nat)
    requires Increasing(s)
    ensures Increasing(DropLE(s, to))
    ensures forall x :: x in DropLE(s, to) <==> x in s && x > to
    ensures |DropLE(s, to)| <= |s| && DropLE(s, to) == s[|s| - |DropLE(s, to)|..]
  {
    var n := Passed(s, to);
    forall x | x in s && x > to ensures x in s[n..] {
      var a :| 0 <= a < |s| && s[a] == x;
      assert a >= n;
      assert s[n..][a - n] == x;
    }
  }

  /** The slot of the k-th queued element. */
  function Slot(start: nat, size: nat, k: nat): nat
    requires start + k < 2 * size
  {
    if start + k >= size then start + k - size else start + k
  }

  class Inflights {
    const size: nat
    var start: nat
    var count: nat
    var buffer: array<nat>

    /** Every queued element lies in the part of the ring that exists so far. */
    ghost predicate Valid()
      reads this
    {
      && count <= size
      && buffer.Length <= size
      && (count == 0 ==> start == 0)
      && (count > 0 ==> start < size)
      && (forall k :: 0 <= k < count ==> Slot(start, size, k) < buffer.Length)
    }

    ghost function Contents(): (s: seq<nat>)
      requires Valid()
      reads this, buffer
    {
      seq(count, k requires 0 <= k < count reads this, buffer
                   requires Valid() => buffer[Slot(start, size, k)])
    }

    constructor (size: nat)
      ensures Valid() && this.size == size && Contents() == [] && fresh(buffer)
    {
      this.size := size;
      start, count := 0, 0;
      buffer := new nat[0];
    }

    constructor Clone(other: Inflights)
      requires other.Valid()
      ensures Valid() && size == other.size && Contents() == other.Contents()
      ensures fresh(buffer)
    {
      size, start, count := other.size, other.start, other.count;
      var copy := new nat[other.buffer.Length](
        i requires 0 <= i < other.buffer.Length reads other, other.buffer => other.buffer[i]);
      buffer := copy;
    }

    predicate Full()
      reads this
    {
      count == size
    }

    method Grow()
      requires Valid() && buffer.Length < size
      modifies this`buffer
      ensures Valid() && start == old(start) && count == old(count)
      ensures fresh(buffer) && old(buffer.Length) < buffer.Length
      ensures Contents() == old(Contents())
    {
      var newSize := buffer.Length * 2;
      if newSize == 0 {
        newSize := 1;
      } else if newSize > size {
        newSize := size;
      }
      var newBuffer := new nat[newSize];
      forall i | 0 <= i < buffer.Length {
        newBuffer[i] := buffer[i];
      }
      buffer := newBuffer;
    }

    method Add(inflight: nat)
      requires Valid() && !Full()
      modifies this, buffer
      ensures Valid() && (buffer == old(buffer) || fresh(buffer))
      ensures Contents() == old(Contents()) + [inflight]
    {
      ghost var was := Contents();
      var next := start + count;
      if next >= size {
        next := next - size;
      }
      // the slot after the last queued one is at most one past the buffer
      assert count > 0 ==> Slot(start, size, count - 1) < buffer.Length;
      if next >= buffer.Length {
        Grow();
      }
      assert forall k :: 0 <= k < count ==> Slot(start, size, k) != next;
      buffer[next] := inflight;
      count := count + 1;
      assert Contents()[..count - 1] == was;
    }

    method FreeLE(to: nat)
      requires Valid()
      modifies this
      ensures Valid() && buffer == old(buffer)
      ensures Contents() == DropLE(old(Contents()), to)
    {
      ghost var was := Contents();
      assert count > 0 ==> Slot(start, size, 0) < buffer.Length;
      if count == 0 || to < buffer[start] {
        assert count > 0 ==> was[0] == buffer[start];
        return;
      }
      ghost var n := Passed(was, to);
      var idx, i := start, 0;
      while i < count
        invariant 0 <= i <= n <= count
        invariant idx == if start + i >= size then start + i - size else start + i
        invariant unchanged(this)
      {
        assert idx == Slot(start, size, i);
        assert was[i] == buffer[idx];
        if to < buffer[idx] {
          break;
        }
        i := i + 1;
        idx := idx + 1;
        if idx >= size {
          idx := idx - size;
        }
      }
      assert i == n;
      ghost var first := start;
      count := count - i;
      start := idx;
      if count == 0 {
        start := 0;
      }
      assert forall k :: 0 <= k < count ==> Slot(start, size, k) == Slot(first, size, k + n);
      assert Contents() == was[n..];
    }

    /** Frees up to the first queued element; an empty queue with a buffer stays as it is. */
    method FreeFirstOne()
      requires Valid() && (count == 0 ==> buffer.Length > 0)
      modifies this
      ensures Valid() && buffer == old(buffer)
      ensures Contents() == var was := old(Contents()); if was == [] then [] else DropLE(was, was[0])
    {
      assert count > 0 ==> Slot(start, size, 0) < buffer.Length && Contents()[0] == buffer[start];
      FreeLE(buffer[start]);
    }

    method Reset()
      requires Valid()
      modifies this
      ensures Valid() && buffer == old(buffer) && Contents() == []
    {
      count := 0;
      start := 0;
    }
  }
}
