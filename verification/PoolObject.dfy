/** `thread_pool_t` and the benchmark task, updated in place. */
module PoolObject {
  import opened Bits
  import opened Circular
  import opened Word64

  /** `x ^ (x >> 12)`, `x ^ (x << 25)` and `x ^ (x >> 27)` on 64-bit words. */
  function ShiftDown12(x: nat): nat { BitXor(x, x / 0x1000) }
  function ShiftUp25(x: nat): nat { BitXor(x, Wrap(x * 0x200_0000)) }
  function ShiftDown27(x: nat): nat { BitXor(x, x / 0x800_0000) }

  function Multiply(x: nat): nat { Wrap(x * 0x2545F4914F6CDD1D) }

  /** `x + (uint64_t)i * 0x9e3779b185ebca87` */
  function AddIndex(x: nat, i: nat): nat { Wrap(x + i * 0x9e3779b185ebca87) }

  /** `(x << 7) | (x >> 57)` */
  function Rotate7(x: nat): nat { BitOr(Wrap(x * 0x80), x / 0x200_0000_0000_0000) }

  /** One iteration of the payload. */
  function Mix(x: nat, i: nat): nat {
    Rotate7(AddIndex(Multiply(ShiftDown27(ShiftUp25(ShiftDown12(x)))), i))
  }

  /** The payload as a recursion over its iterations. */
  function Burn(seed: nat, iters: nat): nat {
    if iters == 0 then BitXor(seed, 0x9e3779b97f4a7c15) else Mix(Burn(seed, iters - 1), iters - 1)
  }

  /** `cpu_burn`; a negative iteration count runs no iteration. */
  method CpuBurn(seed: nat, taskIters: int) returns (x: nat)
    ensures x == Burn(seed, if taskIters > 0 then taskIters else 0)
  {
    x := BitXor(seed, 0x9e3779b97f4a7c15);
    var i := 0;
    while i < taskIters
      invariant 0 <= i <= (if taskIters > 0 then taskIters else 0)
      invariant x == Burn(seed, i)
    {
      x := ShiftDown12(x);
      x := ShiftUp25(x);
      x := ShiftDown27(x);
      x := Multiply(x);
      x := AddIndex(x, i);
      x := Rotate7(x);
      i := i + 1;
    }
  }

  /** The rotation by its two parts: the low 57 bits move up by 7, the high 7 bits come down. */
  lemma RotateMovesBits(x: nat)
    requires x < TWO64
    ensures Rotate7(x) == 0x80 * (x % 0x200_0000_0000_0000) + x / 0x200_0000_0000_0000 < TWO64
  {
    var q, r := x / 0x200_0000_0000_0000, x % 0x200_0000_0000_0000;
    ResidueIsMod(x * 0x80, TWO64);
    ModUnique(x * 0x80, TWO64, q, 0x80 * r);
    assert Pow2(7) == 0x80;
    ShiftedIs(r, 7);
    OrOfParts(r, q, 7);
  }

  /** No intermediate value leaves the 64-bit range. */
  lemma {:induction false} BurnIsWord(seed: nat, iters: nat)
    requires seed < TWO64
    ensures Burn(seed, iters) < TWO64
  {
    if iters == 0 {
      XorIsWord(seed, 0x9e3779b97f4a7c15);
    } else {
      BurnIsWord(seed, iters - 1);
      RotateMovesBits(AddIndex(Multiply(ShiftDown27(ShiftUp25(ShiftDown12(Burn(seed, iters - 1))))), iters - 1));
    }
  }

  /** The seed of task `t` plus its number, as a word. */
  function Seed(t: nat): word { Wrap(0x12345678abcdef00 + t * 1315423911 + t) }

  /** The value of task `t`, which the protocol calls `work(t)`. */
  function TaskValue(taskIters: int, t: nat): word {
    BurnIsWord(Seed(t), if taskIters > 0 then taskIters else 0);
    Burn(Seed(t), if taskIters > 0 then taskIters else 0)
  }

  lemma ShiftSteps(x: nat)
    ensures x / 0x1000 == Halved(x, 12) && x * 0x200_0000 == Shifted(x, 25) && x / 0x800_0000 == Halved(x, 27)
  {
    assert Pow2(12) == 0x1000 && Pow2(25) == 0x200_0000 && Pow2(27) == 0x800_0000;
    HalvedIs(x, 12);
    ShiftedIs(x, 25);
    HalvedIs(x, 27);
  }

  lemma ShiftsAreWords(x: word)
    ensures ShiftDown12(x) < TWO64 && ShiftUp25(x) < TWO64 && ShiftDown27(x) < TWO64
  {
    XorIsWord(x, x / 0x1000);
    XorIsWord(x, Wrap(x * 0x200_0000));
    XorIsWord(x, x / 0x800_0000);
  }

  /** `run_bench_task` */
  method RunBenchTask(results: array<nat>, t: nat, taskIters: int)
    requires t < results.Length
    modifies results
    ensures results[..] == old(results[..])[t := TaskValue(taskIters, t)]
  {
    results[t] := CpuBurn(Seed(t), taskIters);
  }

  /** What a submitter that holds the mutex finds; after `stop` the program ends with an error message. */
  datatype Submission = Submitted | MustWait | Stopped

  class ThreadPool<T(0)> {
    const capacity: nat
    var queue: array<T>
    var queueHead: nat
    var queueTail: nat
    var queueSize: nat
    var outstanding: word
    var stop: bool

    ghost predicate Valid()
      reads this
    {
      && capacity > 0 && queue.Length == capacity
      && queueHead < capacity && queueSize <= capacity
      && queueTail == At(queueHead, queueSize, capacity)
    }

    /** The queued tasks, in the order they will be taken. */
    ghost function Queued(): (s: seq<T>)
      requires Valid()
      reads this, queue
      ensures |s| == queueSize
    {
      Contents(queue[..], queueHead, queueSize)
    }

    /** `owned_thread_pool_init` */
    constructor (capacity: nat)
      requires capacity > 0
      ensures Valid() && fresh(queue) && this.capacity == capacity
      ensures Queued() == [] && outstanding == 0 && !stop
    {
      this.capacity := capacity;
      queue := new T[capacity];
      queueHead, queueTail, queueSize, outstanding, stop := 0, 0, 0, 0, false;
    }

    /** `thread_pool_submit` with the mutex held: queue one task, wait for room, or give up. */
    method SubmitLocked(task: T) returns (r: Submission)
      requires Valid()
      modifies this`queueTail, this`queueSize, this`outstanding, queue
      ensures Valid() && queue == old(queue)
      ensures r.Stopped? <==> stop
      ensures r.MustWait? <==> !stop && |old(Queued())| == capacity
      ensures if r.Submitted? then Queued() == old(Queued()) + [task] && outstanding == Wrap(old(outstanding) + 1)
              else Queued() == old(Queued()) && outstanding == old(outstanding)
    {
      if queueSize == capacity && !stop {
        return MustWait;
      }
      if stop {
        return Stopped;
      }
      Inserted(queue[..], queueHead, queueSize, task);
      TailFollows(queueHead, queueSize, capacity);
      ghost var was := queue[..];
      queue[queueTail] := task;
      assert queue[..] == was[queueTail := task];
      queueTail := (queueTail + 1) % capacity;
      queueSize := queueSize + 1;
      outstanding := Wrap(outstanding + 1);
      return Submitted;
    }

    /** A worker with the mutex held: take the oldest task, leave, or wait. */
    method TakeLocked() returns (task: T, taken: bool, leave: bool)
      requires Valid()
      modifies this`queueHead, this`queueSize
      ensures Valid()
      ensures taken <==> old(Queued()) != []
      ensures taken ==> [task] + Queued() == old(Queued()) && !leave
      ensures !taken ==> Queued() == old(Queued()) && (leave <==> stop)
    {
      if queueSize == 0 {
        return queue[0], false, stop;
      }
      Removed(queue[..], queueHead, queueSize);
      TailFollows(queueHead, queueSize - 1, capacity);
      task := queue[queueHead];
      queueHead := (queueHead + 1) % capacity;
      queueSize := queueSize - 1;
      return task, true, false;
    }

    /** `owned_thread_pool_destroy` with the mutex held. */
    method StopLocked()
      requires Valid()
      modifies this`stop
      ensures Valid() && stop && Queued() == old(Queued())
    {
      stop := true;
    }

    /** A worker that has run its task; the result says whether to broadcast `cv_all_done`. */
    method FinishLocked() returns (allDone: bool)
      requires Valid()
      modifies this`outstanding
      ensures Valid() && Queued() == old(Queued())
      ensures outstanding == Sub(old(outstanding), 1) && (allDone <==> old(outstanding) == 1)
    {
      outstanding := Sub(outstanding, 1);
      allDone := outstanding == 0;
    }
  }
}
