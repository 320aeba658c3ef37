// Ring occupancy (include/flowcan/ring.h) and what a ring of slots with a head and a tail index holds.
module Ring {
  import opened WrapTime

  /** ring_used, in 32-bit size_t arithmetic. */
  function Used(capacity: u32, head: u32, tail: u32): u32 {
    if head >= tail then head - tail else (capacity - (tail - head)) % WRAP
  }

  /** ring_can_write */
  predicate CanWrite(capacity: u32, head: u32, tail: u32, length: u32) {
    capacity > 1 && head < capacity && tail < capacity && length <= (capacity - 1 - Used(capacity, head, tail)) % WRAP
  }

  function Next(i: nat, capacity: nat): nat
    requires capacity > 0
  {
    (i + 1) % capacity
  }

  /** The unread items, oldest first. */
  function Contents<T>(slots: seq<T>, head: nat, tail: nat): seq<T>
    requires head < |slots| && tail < |slots|
  {
    if tail <= head then slots[tail..head] else slots[tail..] + slots[..head]
  }

  lemma NextInRange(i: nat, capacity: nat)
    requires i < capacity
    ensures Next(i, capacity) == if i + 1 == capacity then 0 else i + 1
  {
    if i + 1 < capacity {
      SmallModulo(i + 1, capacity);
    }
  }

  lemma SmallModulo(x: nat, m: nat)
    requires x < m
    ensures x % m == x
  {}

  /** The occupancy count is the number of unread items. */
  lemma UsedIsLength<T>(slots: seq<T>, head: nat, tail: nat)
    requires head < |slots| < WRAP && tail < |slots|
    ensures Used(|slots|, head, tail) == |Contents(slots, head, tail)| < |slots|
  {}

  /** A ring accepts a write exactly when it and the items in it leave one slot free. */
  lemma CanWriteExactly<T>(slots: seq<T>, head: nat, tail: nat, length: u32)
    requires head < |slots| < WRAP && tail < |slots|
    ensures CanWrite(|slots|, head, tail, length) <==>
            |slots| > 1 && |Contents(slots, head, tail)| + length < |slots|
  {
    UsedIsLength(slots, head, tail);
  }

  /** The head would run into the tail exactly when all slots but one are unread. */
  lemma FullExactly<T>(slots: seq<T>, head: nat, tail: nat)
    requires head < |slots| && tail < |slots|
    ensures Next(head, |slots|) == tail <==> |Contents(slots, head, tail)| == |slots| - 1
  {
    NextInRange(head, |slots|);
  }

  /** Storing at the head and moving it on appends, unless the ring is full. */
  lemma PushAppends<T>(slots: seq<T>, head: nat, tail: nat, x: T)
    requires head < |slots| && tail < |slots| && Next(head, |slots|) != tail
    ensures Next(head, |slots|) < |slots|
    ensures Contents(slots[head := x], Next(head, |slots|), tail) == Contents(slots, head, tail) + [x]
  {
    NextInRange(head, |slots|);
  }

  /** The slot at the tail is the oldest unread item, and moving the tail on removes it. */
  lemma PopRemoves<T>(slots: seq<T>, head: nat, tail: nat)
    requires head < |slots| && tail < |slots| && head != tail
    ensures Next(tail, |slots|) < |slots|
    ensures Contents(slots, head, tail) == [slots[tail]] + Contents(slots, head, Next(tail, |slots|))
  {
    NextInRange(tail, |slots|);
  }

  lemma ContentsEmpty<T>(slots: seq<T>, head: nat, tail: nat)
    requires head < |slots| && tail < |slots|
    ensures Contents(slots, head, tail) == [] <==> head == tail
  {}
}
