/** The ring object itself: its wrapped index fields and its buffer, updated in place. */
module RingBuffer {
  import opened Word64

  class Ring {
    var head: word
    var tail: word
    var fullHits: word
    var buffer: array<word>
    const mask: word
    const capacity: word

    ghost predicate Valid()
      reads this
    {
      && IsPowerOfTwo(capacity) && mask == capacity - 1
      && buffer.Length == capacity
      && Sub(tail, head) <= capacity
    }

    /** The values pushed and not yet popped, oldest first. */
    ghost function Contents(): (s: seq<word>)
      requires Valid()
      reads this, buffer
    {
      Between(buffer[..], head, Sub(tail, head))
    }

    constructor (capacity: word)
      requires IsPowerOfTwo(capacity)
      ensures Valid() && Contents() == [] && fresh(buffer)
      ensures this.capacity == capacity && fullHits == 0
    {
      this.capacity := capacity;
      mask := capacity - 1;
      buffer := new word[capacity](_ => 0);
      head, tail, fullHits := 0, 0, 0;
    }

    /** One pass of the push loop: it either publishes `value` or counts a full hit. */
    method PushPass(value: word) returns (done: bool)
      requires Valid()
      modifies this`tail, this`fullHits, buffer
      ensures Valid() && buffer == old(buffer)
      ensures done <==> |old(Contents())| < capacity
      ensures done ==> Contents() == old(Contents()) + [value] && fullHits == old(fullHits)
      ensures !done ==> Contents() == old(Contents()) && fullHits == Wrap(old(fullHits) + 1)
    {
      if Sub(tail, head) >= capacity {
        fullHits := Wrap(fullHits + 1);
        return false;
      }
      ghost var n := Sub(tail, head);
      ghost var was := buffer[..];
      MaskStays(tail, capacity);
      buffer[And(tail, mask)] := value;
      TailIs(head, tail);
      PushBetween(was, head, n, capacity, value);
      assert buffer[..] == was[And(tail, mask) := value];
      tail := Wrap(tail + 1);
      NextDistance(head, n);
      return true;
    }

    /** One pass of the pop loop: it either takes the oldest value or finds the ring empty. */
    method PopPass() returns (value: word, done: bool)
      requires Valid()
      modifies this`head
      ensures Valid()
      ensures done <==> old(Contents()) != []
      ensures done ==> [value] + Contents() == old(Contents())
      ensures !done ==> Contents() == old(Contents())
    {
      EmptyTest(head, tail);
      if head == tail {
        return 0, false;
      }
      MaskStays(head, capacity);
      value := buffer[And(head, mask)];
      PopBetween(buffer[..], head, Sub(tail, head), capacity);
      PrevDistance(head, tail);
      head := Wrap(head + 1);
      return value, true;
    }
  }

  /** The `n` buffer words from the wrapped index `head` on. */
  ghost function Between(buffer: seq<word>, head: word, n: nat): (s: seq<word>)
    requires IsPowerOfTwo(|buffer|) && |buffer| < TWO64
    ensures |s| == n
  {
    seq<word>(n, k requires 0 <= k < n => MaskStays(Wrap(head + k), |buffer|); buffer[And(Wrap(head + k), |buffer| - 1)])
  }

  lemma MaskStays(i: word, capacity: word)
    requires IsPowerOfTwo(capacity)
    ensures And(i, capacity - 1) < capacity
  {
    MaskIsSlot(i, capacity);
  }

  lemma EmptyTest(head: word, tail: word)
    ensures Sub(tail, head) == 0 <==> head == tail
  {
  }

  lemma TailIs(head: word, tail: word)
    ensures tail == Wrap(head + Sub(tail, head))
  {
    if tail < head { assert Residue(tail, TWO64) == tail; }
  }

  lemma NextDistance(head: word, n: word)
    requires n + 1 < TWO64
    ensures Sub(Wrap(Wrap(head + n) + 1), head) == n + 1
  {
    ResidueAdd(head + n, 1, TWO64);
    SubWrapped(head + n + 1, head);
  }

  lemma PrevDistance(head: word, tail: word)
    requires head != tail
    ensures Sub(tail, Wrap(head + 1)) == Sub(tail, head) - 1
  {
    TailIs(head, tail);
    SubWrapped(head + Sub(tail, head), head + 1);
  }

  lemma PushBetween(buffer: seq<word>, head: word, n: nat, capacity: word, value: word)
    requires IsPowerOfTwo(capacity) && |buffer| == capacity && n < capacity
    ensures And(Wrap(head + n), capacity - 1) < capacity
    ensures Between(buffer[And(Wrap(head + n), capacity - 1) := value], head, n + 1) == Between(buffer, head, n) + [value]
  {
    MaskIsSlot(head + n, capacity);
    var j := Residue(head + n, capacity);
    var buffer' := buffer[j := value];
    forall k | 0 <= k < n ensures Between(buffer', head, n + 1)[k] == Between(buffer, head, n)[k] {
      OtherSlot(head, k, n, capacity);
    }
  }

  lemma OtherSlot(head: word, k: nat, n: nat, capacity: word)
    requires IsPowerOfTwo(capacity) && k < n < capacity
    ensures And(Wrap(head + k), capacity - 1) < capacity
    ensures And(Wrap(head + k), capacity - 1) != Residue(head + n, capacity)
  {
    MaskIsSlot(head + k, capacity);
    ResidueInjective(head + k, head + n, capacity);
  }

  lemma PopBetween(buffer: seq<word>, head: word, n: nat, capacity: word)
    requires IsPowerOfTwo(capacity) && |buffer| == capacity && n > 0
    ensures And(head, capacity - 1) < capacity
    ensures Between(buffer, head, n) == [buffer[And(head, capacity - 1)]] + Between(buffer, Wrap(head + 1), n - 1)
  {
    MaskIsSlot(head, capacity);
    forall k | 1 <= k < n ensures Between(buffer, Wrap(head + 1), n - 1)[k - 1] == Between(buffer, head, n)[k] {
      ResidueAdd(head + 1, k - 1, TWO64);
      assert head + 1 + (k - 1) == head + k;
      var h := Wrap(head + 1);
      MaskStays(Wrap(head + k), capacity);
      assert Between(buffer, h, n - 1)[k - 1] == buffer[And(Wrap(h + (k - 1)), capacity - 1)];
      assert Between(buffer, head, n)[k] == buffer[And(Wrap(head + k), capacity - 1)];
    }
  }
}
