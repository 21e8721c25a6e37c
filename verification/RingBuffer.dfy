/** The fixed-capacity event buffer (ring_buffer.h): it remembers exactly the last `capacity` items. */
module RingBuffer {
  import opened Sequences
  import opened RoundRobin

  class RingBuffer<T(0)> {
    const capacity: nat
    const buffer: array<T>
    var head: nat
    var tail: nat
    var full: bool
    /** Everything ever pushed. */
    ghost var pushed: seq<T>

    ghost predicate Valid()
      reads this, buffer
    {
      && buffer.Length == capacity > 0
      && head == Slot(0, |pushed|, capacity)
      && full == (|pushed| >= capacity)
      && tail == (if full then head else 0)
      && (forall j: nat :: |pushed| - capacity <= j < |pushed| ==> buffer[Slot(0, j, capacity)] == pushed[j])
    }

    constructor (capacity: nat)
      requires capacity > 0
      ensures Valid() && pushed == [] && this.capacity == capacity && fresh(buffer)
    {
      this.capacity := capacity;
      buffer := new T[capacity];
      head, tail, full := 0, 0, false;
      pushed := [];
    }

    method Push(item: T)
      requires Valid()
      modifies this, buffer
      ensures Valid() && pushed == old(pushed) + [item]
    {
      var n := capacity;
      ghost var p := |pushed|;
      SlotNext(p, n);
      SlotFull(p, n);
      forall j: nat | p + 1 - n <= j < p
        ensures Slot(0, j, n) != head
      {
        SlotInjective(0, j, p, n);
      }
      buffer[head] := item;
      head := (head + 1) % n;
      if full {
        tail := (tail + 1) % n;
      }
      if head == tail {
        full := true;
      }
      pushed := pushed + [item];
    }

    method SizeUnlocked() returns (size: int)
      requires Valid()
      ensures size == if |pushed| < capacity then |pushed| else capacity
    {
      SlotFull(|pushed|, capacity);
      if full {
        size := capacity;
      } else if head >= tail {
        size := head - tail;
      } else {
        size := capacity + head - tail;
      }
    }

    /** The last min(n, pushes, capacity) items, oldest first. */
    method LastItems(n: nat) returns (result: seq<T>)
      requires Valid()
      ensures result == LastN(LastN(pushed, capacity), n)
    {
      hide Slot, LastN;
      var count := SizeUnlocked();
      var toFetch := if n < count then n else count;
      result := [];
      ghost var first := |pushed| - toFetch;
      for i := 0 to toFetch
        invariant |result| == i
        invariant forall k :: 0 <= k < i ==> result[k] == pushed[first + k]
      {
        var idx := (head + capacity - toFetch + i) % capacity;
        SlotBack(|pushed|, toFetch, i, capacity);
        result := result + [buffer[idx]];
      }
      LastOfLast(pushed, capacity, n, result);
    }
  }

  lemma LastOfLast<T>(s: seq<T>, c: nat, n: nat, r: seq<T>)
    requires |r| == (if n < |s| && n < c then n else if |s| < c then |s| else c)
    requires forall k :: 0 <= k < |r| ==> r[k] == s[|s| - |r| + k]
    ensures r == LastN(LastN(s, c), n)
  {
  }

  lemma SlotNext(p: nat, n: nat)
    requires n > 0
    ensures (Slot(0, p, n) + 1) % n == Slot(0, p + 1, n)
  {
    SlotResume(0, p, 1, n);
  }

  /** The write position comes back to the start exactly when the buffer first fills up. */
  lemma SlotFull(p: nat, n: nat)
    requires n > 0
    ensures p < n ==> Slot(0, p, n) == p
    ensures p + 1 < n ==> Slot(0, p + 1, n) == p + 1
    ensures p + 1 == n ==> Slot(0, p + 1, n) == 0
  {
    if p < n { SlotAt(0, p, n, 0, p); }
    if p + 1 < n { SlotAt(0, p + 1, n, 0, p + 1); }
    if p + 1 == n { SlotAt(0, p + 1, n, 1, 0); }
  }

  /** Going back `f` places from the write position and forward `i` again. */
  lemma SlotBack(p: nat, f: nat, i: nat, n: nat)
    requires n > 0 && i < f <= n && f <= p
    ensures (Slot(0, p, n) + n - f + i) % n == Slot(0, p - f + i, n)
  {
    var r := Slot(0, p, n);
    var q := p / n;
    assert p == q * n + r;
    var d := r + i - f;
    if d >= 0 {
      SlotAt(0, p - f + i, n, q, d);
      SlotAt(0, r + n - f + i, n, 1, d);
    } else {
      SlotAt(0, p - f + i, n, q - 1, d + n);
      SlotAt(0, r + n - f + i, n, 0, d + n);
    }
  }
}
