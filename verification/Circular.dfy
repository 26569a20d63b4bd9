/** A bounded circular array: what it holds, and what inserting and removing do to that. */
module Circular {
  import opened Word64

  /** The array index `k` places after `head`. */
  function At(head: nat, k: nat, capacity: nat): (i: int)
    requires head < capacity && k <= capacity
    ensures 0 <= i < capacity
  {
    if head + k < capacity then head + k else head + k - capacity
  }

  lemma AtIsMod(head: nat, k: nat, capacity: nat)
    requires head < capacity && k <= capacity
    ensures At(head, k, capacity) == (head + k) % capacity
  {
    if head + k < capacity {
      ModUnique(head + k, capacity, 0, head + k);
    } else {
      ModUnique(head + k, capacity, 1, head + k - capacity);
    }
  }

  /** The `count` elements from `head` on, oldest first. */
  function Contents<T>(buffer: seq<T>, head: nat, count: nat): (s: seq<T>)
    requires head < |buffer| && count <= |buffer|
    ensures |s| == count
  {
    seq(count, k requires 0 <= k < count => buffer[At(head, k, |buffer|)])
  }

  lemma Inserted<T>(buffer: seq<T>, head: nat, count: nat, item: T)
    requires head < |buffer| && count < |buffer|
    ensures Contents(buffer[At(head, count, |buffer|) := item], head, count + 1) == Contents(buffer, head, count) + [item]
  {
  }

  lemma Removed<T>(buffer: seq<T>, head: nat, count: nat)
    requires head < |buffer| && 0 < count <= |buffer|
    ensures Contents(buffer, head, count) == [buffer[head]] + Contents(buffer, At(head, 1, |buffer|), count - 1)
  {
    var rest := Contents(buffer, At(head, 1, |buffer|), count - 1);
    forall k | 0 < k < count ensures Contents(buffer, head, count)[k] == rest[k - 1] {
      assert At(At(head, 1, |buffer|), k - 1, |buffer|) == At(head, k, |buffer|);
    }
  }

  /** Advancing past the last element, the tail follows. */
  lemma TailFollows(head: nat, count: nat, capacity: nat)
    requires head < capacity && count < capacity
    ensures (At(head, count, capacity) + 1) % capacity == At(head, count + 1, capacity)
    ensures (head + 1) % capacity == At(head, 1, capacity)
    ensures At(At(head, 1, capacity), count, capacity) == At(head, count + 1, capacity)
  {
    AtIsMod(At(head, count, capacity), 1, capacity);
    AtIsMod(head, 1, capacity);
  }
}
