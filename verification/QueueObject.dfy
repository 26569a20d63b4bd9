/** `queue_t` itself: the circular array and its counters, updated in place under the mutex. */
module QueueObject {
  import opened Circular
  import opened QueueProtocol
  import opened Word64

  /** What a consumer that holds the mutex finds. */
  datatype Outcome<T> = Popped(item: T) | MustWait | Closed

  class BlockingQueue<T(0)> {
    const capacity: word
    var buffer: array<T>
    var head: nat
    var tail: nat
    var count: word
    var maxObservedCount: nat
    var activeProducers: int

    ghost predicate Valid()
      reads this
    {
      && capacity > 0 && buffer.Length == capacity
      && head < capacity && count <= capacity
      && tail == At(head, count, capacity)
    }

    /** The protocol's view of the fields. */
    ghost function View(): Shared<T>
      requires Valid()
      reads this, buffer
    {
      Shared(Contents(buffer[..], head, count), maxObservedCount, activeProducers)
    }

    /** `queue_init` */
    constructor (capacity: word, activeProducers: nat)
      requires capacity > 0
      ensures Valid() && fresh(buffer) && this.capacity == capacity
      ensures View() == Shared([], 0, activeProducers)
    {
      this.capacity := capacity;
      this.activeProducers := activeProducers;
      buffer := new T[capacity];
      head, tail, count, maxObservedCount := 0, 0, 0, 0;
    }

    /** `queue_push_blocking` once the mutex is held: insert, or report that the producer must wait. */
    method PushLocked(item: T) returns (inserted: bool)
      requires Valid()
      modifies this`tail, this`count, this`maxObservedCount, buffer
      ensures Valid() && buffer == old(buffer)
      ensures inserted <==> |old(View()).items| < capacity
      ensures View() == if inserted then Push(old(View()), item) else old(View())
    {
      if count == capacity {
        return false;
      }
      Inserted(buffer[..], head, count, item);
      TailFollows(head, count, capacity);
      ghost var was := buffer[..];
      buffer[tail] := item;
      assert buffer[..] == was[tail := item];
      tail := (tail + 1) % capacity;
      count := count + 1;
      if count > maxObservedCount {
        maxObservedCount := count;
      }
      return true;
    }

    /**
     `queue_pop_blocking` once the mutex is held. The tests are the source's: with a negative number
     of active producers, which no run reaches, an empty queue is popped and its count wraps.
     */
    method PopLocked() returns (r: Outcome<T>)
      requires Valid()
      modifies this`head, this`count
      ensures Valid() <==> (old(View()).items != [] || activeProducers >= 0)
      ensures match r
        case Popped(item) =>
          if old(View()).items != [] then item == old(View()).items[0] && View() == Pop(old(View()))
          else activeProducers < 0 && count == TWO64 - 1 && item == old(buffer[head])
        case MustWait => old(View()).items == [] && activeProducers > 0 && View() == old(View())
        case Closed => old(View()).items == [] && activeProducers == 0 && View() == old(View())
    {
      if count == 0 && activeProducers > 0 {
        return MustWait;
      }
      if count == 0 && activeProducers == 0 {
        return Closed;
      }
      if count > 0 {
        Removed(buffer[..], head, count);
        TailFollows(head, count - 1, capacity);
      }
      r := Popped(buffer[head]);
      head := (head + 1) % capacity;
      count := Sub(count, 1);
    }

    /** `queue_producer_finished` once the mutex is held. */
    method FinishLocked()
      requires Valid()
      modifies this`activeProducers
      ensures Valid() && View() == Finish(old(View()))
    {
      activeProducers := activeProducers - 1;
    }
  }
}
