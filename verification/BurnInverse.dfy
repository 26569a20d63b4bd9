/** The thread pool benchmark's payload, undone: from the value a task stores back to the seed it came from. */
module BurnInverse {
  import opened Bits
  import opened PoolObject
  import opened Undo
  import opened Word64

  /** Turn right by 7, subtract, divide, and undo the three shifts. */
  function Unmix(y: nat, i: nat): nat {
    var r := y % 0x80 * 0x200_0000_0000_0000 + y / 0x80;
    var m := Wrap(r + TWO64 - Wrap(i * 0x9e3779b185ebca87));
    var v := Wrap(m * 0x59071d96d81ecd35);
    UndoDown(UndoUp(UndoDown(v, 27, 2), 25, 2), 12, 5)
  }

  lemma RotateUndone(x: word)
    ensures Rotate7(x) % 0x80 * 0x200_0000_0000_0000 + Rotate7(x) / 0x80 == x
  {
    RotateMovesBits(x);
    ModUnique(Rotate7(x), 0x80, x % 0x200_0000_0000_0000, x / 0x200_0000_0000_0000);
  }

  lemma SubtractUndone(x: word, n: nat)
    ensures Wrap(Wrap(x + n) + TWO64 - Wrap(n)) == x
  {
    var w: word := Wrap(n);
    ResidueAdd(n, x, TWO64);
    assert Wrap(x + n) == Wrap(x + w);
    if x + w < TWO64 {
      assert Wrap(x + w) == x + w;
      assert Wrap(x + TWO64) == Wrap(x) == x;
    } else {
      assert Wrap(x + w) == Wrap(x + w - TWO64) == x + w - TWO64;
    }
  }

  lemma DivideUndone(x: word)
    ensures Wrap(Wrap(x * 0x2545F4914F6CDD1D) * 0x59071d96d81ecd35) == x
  {
    WrapOfProduct(x * 0x2545F4914F6CDD1D, 0x59071d96d81ecd35, 0);
    assert 0x2545F4914F6CDD1D * 0x59071d96d81ecd35 == 1 + TWO64 * 0xcf65b3f17bf4a6b;
    assert x * 0x2545F4914F6CDD1D * 0x59071d96d81ecd35 == x + (x * 0xcf65b3f17bf4a6b) * TWO64;
    ResiduePeriods(x, x * 0xcf65b3f17bf4a6b, TWO64);
  }

  lemma ShiftsUndone(x: word)
    ensures ShiftDown27(ShiftUp25(ShiftDown12(x))) < TWO64
    ensures UndoDown(UndoUp(UndoDown(ShiftDown27(ShiftUp25(ShiftDown12(x))), 27, 2), 25, 2), 12, 5) == x
  {
    ShiftsAreWords(x);
    var a: word := ShiftDown12(x);
    ShiftsAreWords(a);
    var b: word := ShiftUp25(a);
    ShiftsAreWords(b);
    ShiftSteps(x);
    ShiftSteps(a);
    ShiftSteps(b);
    DownUndone(b, 27, 2);
    UpUndone(a, 25, 2);
    DownUndone(x, 12, 5);
  }

  /** An iteration can be undone, so for each index it permutes the words. */
  lemma MixUndone(x: word, i: nat)
    ensures Unmix(Mix(x, i), i) == x
  {
    ShiftsUndone(x);
    var v: word := ShiftDown27(ShiftUp25(ShiftDown12(x)));
    var m: word := Multiply(v);
    var r: word := AddIndex(m, i);
    RotateUndone(r);
    SubtractUndone(m, i * 0x9e3779b185ebca87);
    DivideUndone(v);
  }

  /** An iteration loses nothing: different words stay different. */
  lemma MixInjective(x: word, y: word, i: nat)
    ensures Mix(x, i) == Mix(y, i) <==> x == y
  {
    MixUndone(x, i);
    MixUndone(y, i);
  }

  function Unburn(y: nat, iters: nat): nat
    decreases iters
  {
    if iters == 0 then BitXor(y, 0x9e3779b97f4a7c15) else Unburn(Unmix(y, iters - 1), iters - 1)
  }

  lemma LastUndone(seed: word, i: nat)
    ensures Unburn(Burn(seed, i + 1), i + 1) == Unburn(Burn(seed, i), i)
  {
    BurnIsWord(seed, i);
    MixUndone(Burn(seed, i), i);
  }

  lemma FirstUndone(seed: nat)
    ensures Unburn(Burn(seed, 0), 0) == seed
  {
    XorAssociates(seed, 0x9e3779b97f4a7c15, 0x9e3779b97f4a7c15);
    XorCancels(0x9e3779b97f4a7c15);
    XorCommutes(seed, 0);
  }

  lemma {:induction false} AllTheSame(v: seq<nat>, n: nat)
    requires n < |v| && forall i {:trigger v[i]} :: 0 < i < |v| ==> v[i] == v[i - 1]
    ensures v[n] == v[0]
  {
    if n > 0 { AllTheSame(v, n - 1); }
  }

  /** So can the payload: it permutes the words, whatever the number of iterations. */
  lemma BurnUndone(seed: word, iters: nat)
    ensures Unburn(Burn(seed, iters), iters) == seed
  {
    var v := seq(iters + 1, i requires i >= 0 => Unburn(Burn(seed, i), i));
    forall i | 0 < i < |v| ensures v[i] == v[i - 1] { LastUndone(seed, i - 1); }
    AllTheSame(v, iters);
    FirstUndone(seed);
  }

  /** From the value a task stores, the seed and the number of the task it was computed from. */
  lemma TaskValueUndone(taskIters: int, t: nat)
    ensures Unburn(TaskValue(taskIters, t), if taskIters > 0 then taskIters else 0)
         == Wrap(0x12345678abcdef00 + t * 1315423911 + t)
  {
    BurnUndone(Seed(t), if taskIters > 0 then taskIters else 0);
  }

  /** The seeds step by 8 times an odd number, so they repeat every 2^61 tasks and not before. */
  lemma SeedsAgreeIff(t: nat, u: nat)
    requires t <= u
    ensures Seed(t) == Seed(u) <==> (u - t) % 0x2000_0000_0000_0000 == 0
  {
    var a := WrapIs(0x12345678abcdef00 + t * 1315423911 + t);
    var b := WrapIs(0x12345678abcdef00 + u * 1315423911 + u);
    var d: int, e: int := u - t, b - a;
    assert d * 1315423912 == TWO64 * e + Seed(u) - Seed(t);
    if Seed(t) == Seed(u) {
      assert d * 164427989 == 0x2000_0000_0000_0000 * e;
      assert 164427989 * 0x90d365f1080807d == 1 + 0x2000_0000_0000_0000 * 0x2c5b1e8;
      assert d == 0x2000_0000_0000_0000 * (e * 0x90d365f1080807d - d * 0x2c5b1e8);
      ModUnique(d, 0x2000_0000_0000_0000, e * 0x90d365f1080807d - d * 0x2c5b1e8, 0);
    }
    if d % 0x2000_0000_0000_0000 == 0 {
      var k := d / 0x2000_0000_0000_0000;
      assert d * 1315423912 == TWO64 * (k * 164427989);
      assert Seed(u) - Seed(t) == TWO64 * (k * 164427989 - e);
    }
  }

  /** Distinct tasks store distinct values, whatever the iteration count, short of 2^61 tasks. */
  lemma ValuesAgreeIff(taskIters: int, t: nat, u: nat)
    requires t <= u
    ensures TaskValue(taskIters, t) == TaskValue(taskIters, u) <==> (u - t) % 0x2000_0000_0000_0000 == 0
  {
    SeedsAgreeIff(t, u);
    BurnUndone(Seed(t), if taskIters > 0 then taskIters else 0);
    BurnUndone(Seed(u), if taskIters > 0 then taskIters else 0);
  }

  lemma OddStep(d: int, e: int)
    requires d * 0x9e3779b185ebca87 == TWO64 * e
    ensures d % TWO64 == 0
  {
    assert d * (0x9e3779b185ebca87 * 0x887493432badb37) == TWO64 * (e * 0x887493432badb37);
    assert 0x9e3779b185ebca87 * 0x887493432badb37 == 1 + TWO64 * 0x545584ccd1fa67a;
    assert d == TWO64 * (e * 0x887493432badb37 - d * 0x545584ccd1fa67a);
  }

  lemma SameIndex(m: word, i: nat, j: nat)
    requires i <= j
    ensures AddIndex(m, i) == AddIndex(m, j) <==> (j - i) % TWO64 == 0
  {
    if AddIndex(m, i) == AddIndex(m, j) {
      var e := SameWrap(m + j * 0x9e3779b185ebca87, m + i * 0x9e3779b185ebca87);
      OddStep(j - i, e);
    } else if (j - i) % TWO64 == 0 {
      var q := (j - i) / TWO64;
      assert m + j * 0x9e3779b185ebca87 == m + i * 0x9e3779b185ebca87 + (q * 0x9e3779b185ebca87) * TWO64;
      ResiduePeriods(m + i * 0x9e3779b185ebca87, q * 0x9e3779b185ebca87, TWO64);
    }
  }

  /** Two iterations that differ in their index alone agree exactly when the indices agree modulo 2^64. */
  lemma IndexMatters(x: word, i: nat, j: nat)
    requires i <= j
    ensures Mix(x, i) == Mix(x, j) <==> (j - i) % TWO64 == 0
  {
    var m: word := Multiply(ShiftDown27(ShiftUp25(ShiftDown12(x))));
    RotateUndone(AddIndex(m, i));
    RotateUndone(AddIndex(m, j));
    SameIndex(m, i, j);
  }
}
