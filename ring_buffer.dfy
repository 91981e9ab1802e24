/**
 * The fixed-capacity buffer of main.go's buffering stage: a FIFO window of
 * the most recent `size` numbers, drained all at once.
 *
 * The abstract side (Window, Pushed, PushAll) says what the buffer holds;
 * the class RingBuffer is the in-place implementation over an array and a
 * cursor, proved against it.
 */
module RingBuffers {
  import opened Wrappers

  function Min(a: int, b: int): int { if a <= b then a else b }

  /** The last `cap` elements of `xs` (all of `xs` if it is shorter), in order. */
  function Window(xs: seq<int>, cap: nat): (r: seq<int>)
    ensures |r| == Min(|xs|, cap)
    ensures r == xs[|xs| - |r|..]
  {
    if |xs| <= cap then xs else xs[|xs| - cap..]
  }

  /**
   * What one push does to contents `c` of a buffer of capacity `cap`:
   * append while there is room, otherwise evict the oldest and append.
   * Either way the result is the window of the last `cap` values.
   */
  function Pushed(c: seq<int>, v: int, cap: nat): (r: seq<int>)
    requires 1 <= cap && |c| <= cap
    ensures |c| < cap ==> r == c + [v] && |r| == |c| + 1
    ensures |c| == cap ==> r == c[1..] + [v] && |r| == cap
    ensures r == Window(c + [v], cap)
  {
    if |c| == cap then c[1..] + [v] else c + [v]
  }

  /** Contents after pushing every element of `xs`, in order, onto contents `c`. */
  function PushAll(c: seq<int>, xs: seq<int>, cap: nat): (r: seq<int>)
    requires 1 <= cap && |c| <= cap
    ensures |r| <= cap
  {
    if xs == [] then c
    else Pushed(PushAll(c, xs[..|xs| - 1], cap), xs[|xs| - 1], cap)
  }

  /** Trimming to the window before or after appending one value gives the same window. */
  lemma {:induction false} WindowSnoc(s: seq<int>, v: int, cap: nat)
    requires 1 <= cap
    ensures Window(Window(s, cap) + [v], cap) == Window(s + [v], cap)
  {
    if |s| >= cap {
      var w := s[|s| - cap..];
      assert (w + [v])[1..] == s[|s| - cap + 1..] + [v];
      assert (s + [v])[|s| + 1 - cap..] == s[|s| - cap + 1..] + [v];
    }
  }

  /**
   * Pushing a sequence onto contents `c` leaves the window of the last
   * `cap` values of `c` followed by the sequence.
   */
  lemma {:induction false} PushAllIsWindow(c: seq<int>, xs: seq<int>, cap: nat)
    requires 1 <= cap && |c| <= cap
    ensures PushAll(c, xs, cap) == Window(c + xs, cap)
  {
    if xs == [] {
      assert c + xs == c;
    } else {
      var init, last := xs[..|xs| - 1], xs[|xs| - 1];
      calc {
        PushAll(c, xs, cap);
        Pushed(PushAll(c, init, cap), last, cap);
        { PushAllIsWindow(c, init, cap); }
        Pushed(Window(c + init, cap), last, cap);
        Window(Window(c + init, cap) + [last], cap);
        { WindowSnoc(c + init, last, cap); }
        Window((c + init) + [last], cap);
        { assert (c + init) + [last] == c + xs; }
        Window(c + xs, cap);
      }
    }
  }

  /**
   * Pushing any `xs` into an empty buffer leaves exactly the last
   * min(|xs|, cap) elements of `xs`, in order.
   */
  lemma {:induction false} PushAllFromEmpty(xs: seq<int>, cap: nat)
    requires 1 <= cap
    ensures var r := PushAll([], xs, cap);
      |r| == Min(|xs|, cap) && r == xs[|xs| - |r|..]
  {
    PushAllIsWindow([], xs, cap);
    assert [] + xs == xs;
  }

  /**
   * Go's `copy(a, a[1:])`: every element moves one slot to the left; the
   * last slot keeps its value.
   */
  method ShiftLeft(a: array<int>)
    requires a.Length >= 1
    modifies a
    ensures a[..a.Length - 1] == old(a[1..])
    ensures a[a.Length - 1] == old(a[a.Length - 1])
  {
    var i := 0;
    while i < a.Length - 1
      invariant 0 <= i <= a.Length - 1
      invariant forall k :: 0 <= k < i ==> a[k] == old(a[k + 1])
      invariant forall k :: i <= k < a.Length ==> a[k] == old(a[k])
    {
      a[i] := a[i + 1];
      i := i + 1;
    }
  }

  class RingBuffer {
    var data: array<int>
    /** Index of the newest element; -1 when empty. */
    var pos: int
    const size: int

    ghost predicate Valid()
      reads this
    {
      data.Length == size && -1 <= pos <= size - 1
    }

    /** The held items, oldest first. */
    ghost function Contents(): (s: seq<int>)
      reads this, data
      requires Valid()
      ensures |s| == pos + 1 <= size
    {
      data[..pos + 1]
    }

    /** NewRingBuffer: an empty buffer of the given capacity. */
    constructor (size: int)
      requires size >= 0
      ensures Valid() && fresh(data)
      ensures this.size == size && Contents() == []
    {
      data := new int[size];
      this.size := size;
      pos := -1;
    }

    /**
     * Push: append while there is room; when full, shift everything left
     * by one (evicting the oldest) and write the value into the last slot.
     */
    method Push(value: int)
      requires Valid() && size >= 1
      modifies this, data
      ensures Valid() && data == old(data)
      ensures old(pos) < size - 1 ==> Contents() == old(Contents()) + [value] && pos == old(pos) + 1
      ensures old(pos) == size - 1 ==> Contents() == old(Contents())[1..] + [value] && pos == old(pos)
      ensures Contents() == Pushed(old(Contents()), value, size)
    {
      if pos == size - 1 {
        ShiftLeft(data);
        data[pos] := value;
      } else {
        pos := pos + 1;
        data[pos] := value;
      }
    }

    /**
     * Get: on an empty buffer, no data and nothing changes; otherwise the
     * held items in insertion order, and the buffer becomes empty.
     */
    method Get() returns (batch: Option<seq<int>>)
      requires Valid()
      modifies this
      ensures Valid() && data == old(data) && unchanged(data)
      ensures old(pos) < 0 ==> batch == None && pos == old(pos)
      ensures old(pos) >= 0 ==> batch == Some(old(Contents())) && batch.value != []
      ensures Contents() == []
    {
      if pos < 0 {
        return None;
      }
      batch := Some(data[..pos + 1]);
      pos := -1;
    }
  }
}
