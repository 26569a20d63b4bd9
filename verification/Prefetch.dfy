/** The prefetch lab: index arrays, their xorshift shuffle, and the measured sum over them. */
module Prefetch {
  import opened Bits
  import opened Word64
  import opened Folds
  import opened FisherYates
  import opened Strides
  import opened Undo
  import opened Wrappers

  /** Count the visits, then write each visited index down. */
  method BuildIndices(elemCount: nat, stride: nat) returns (idx: array<nat>)
    requires stride > 0
    ensures fresh(idx) && idx[..] == Positions(elemCount, stride) && Increasing(idx[..])
  {
    var count := 0;
    var i := 0;
    while i < elemCount
      invariant i == count * stride
      invariant forall k: nat :: k < count ==> k * stride < elemCount
      decreases elemCount + stride - i
    {
      count := count + 1;
      i := i + stride;
    }
    CountReached(elemCount, stride, count);
    idx := new nat[count];
    var k := 0;
    i := 0;
    while i < elemCount
      invariant i == k * stride && k <= count
      invariant forall j :: 0 <= j < k ==> idx[j] == j * stride
      decreases elemCount + stride - i
    {
      CeilDivCounts(elemCount, stride, k);
      idx[k] := i;
      k := k + 1;
      i := i + stride;
    }
    CeilDivCounts(elemCount, stride, k);
    PositionsIncrease(elemCount, stride);
  }

  lemma CountReached(n: nat, stride: nat, count: nat)
    requires stride > 0 && count * stride >= n && forall k: nat :: k < count ==> k * stride < n
    ensures count == CeilDiv(n, stride)
  {
    CeilDivCounts(n, stride, count);
    CeilDivCounts(n, stride, CeilDiv(n, stride));
  }

  function XorWord(a: word, b: word): word {
    XorIsWord(a, b);
    BitXor(a, b)
  }

  /** One step of the generator: shifts of 13 left, 7 right and 17 left. */
  function XorShift(state: word): word {
    var x: word := XorWord(state, Wrap(state * 0x2000));
    var y: word := XorWord(x, x / 0x80);
    XorWord(y, Wrap(y * 0x2_0000))
  }

  /** The three shifts by their distances. */
  lemma ShiftDistances(x: nat)
    ensures x * 0x2000 == Shifted(x, 13) && x / 0x80 == Halved(x, 7) && x * 0x2_0000 == Shifted(x, 17)
  {
    assert Pow2(13) == 0x2000 && Pow2(7) == 0x80 && Pow2(17) == 0x2_0000;
    ShiftedIs(x, 13);
    HalvedIs(x, 7);
    ShiftedIs(x, 17);
  }

  /** The state a step came from. */
  function Unshift(z: nat): nat {
    UndoUp(UndoDown(UndoUp(z, 17, 3), 7, 9), 13, 4)
  }

  /** A step can be undone, so the generator permutes the words. */
  lemma XorShiftUndone(state: word)
    ensures Unshift(XorShift(state)) == state
  {
    var x: word := XorWord(state, Wrap(state * 0x2000));
    var y: word := XorWord(x, x / 0x80);
    ShiftDistances(state);
    ShiftDistances(x);
    ShiftDistances(y);
    UpUndone(y, 17, 3);
    DownUndone(x, 7, 9);
    UpUndone(state, 13, 4);
  }

  /** The generator never brings two states together. */
  lemma XorShiftInjective(a: word, b: word)
    ensures XorShift(a) == XorShift(b) <==> a == b
  {
    XorShiftUndone(a);
    XorShiftUndone(b);
  }

  /** Replacing a zero seed is enough: from any other state the generator never gets stuck at zero. */
  lemma StateNeverZero(state: word)
    ensures XorShift(state) == 0 <==> state == 0
  {
    assert XorShift(0) == 0;
    XorShiftInjective(state, 0);
  }

  const DEFAULT_STATE: word := 0x12_3456_78ab_cdef

  function StartState(seed: word): word {
    if seed != 0 then seed else DEFAULT_STATE
  }

  function XorShiftChoices(state: word, n: nat): (js: seq<nat>)
    ensures |js| == n && Choices(js)
    decreases n
  {
    if n == 0 then []
    else if n == 1 then [0]
    else XorShiftChoices(XorShift(state), n - 1) + [XorShift(state) % n]
  }

  /** The state after `n` calls. */
  function After(state: word, n: nat): word {
    if n == 0 then state else XorShift(After(state, n - 1))
  }

  lemma {:induction false} AfterNext(state: word, n: nat)
    ensures After(XorShift(state), n) == After(state, n + 1)
  {
    if n > 0 { AfterNext(state, n - 1); }
  }

  /** Place `i` of `n` is exchanged by the state after `n - i` calls, modulo the places left. */
  lemma {:induction false} ChoicesAre(state: word, n: nat, i: nat)
    requires i < n
    ensures i > 0 ==> XorShiftChoices(state, n)[i] == After(state, n - i) % (i + 1)
    decreases n
  {
    if n > 1 {
      if i < n - 1 {
        ChoicesAre(XorShift(state), n - 1, i);
        AfterNext(state, n - 1 - i);
      } else {
        AfterNext(state, 0);
      }
    }
  }

  lemma LastChoice(js: seq<nat>, y: word, i: nat)
    requires i > 0 && js == XorShiftChoices(y, i) + [y % (i + 1)]
    ensures Front(js) == XorShiftChoices(y, i) && js[i] == y % (i + 1)
  {
  }

  function Shuffled(idx: seq<nat>, seed: word): seq<nat> {
    Arrange(idx, XorShiftChoices(StartState(seed), |idx|))
  }

  /**
   * The shuffled array is what exchanging its places from the last down to place 1 makes of it, place `i`
   * with the place the state after as many calls gives modulo `i + 1`.
   */
  lemma ShuffledIs(idx: seq<nat>, seed: word) returns (js: seq<nat>)
    ensures |js| == |idx| && Choices(js) && Shuffled(idx, seed) == Exchanged(idx, js)
    ensures forall i: nat :: 0 < i < |idx| ==>
      js[i] == After(if seed != 0 then seed else 0x12_3456_78ab_cdef, |idx| - i) % (i + 1)
  {
    var x: word := StartState(seed);
    js := XorShiftChoices(x, |idx|);
    ArrangeIs(idx, js);
    forall i: nat | 0 < i < |idx| ensures js[i] == After(x, |idx| - i) % (i + 1) { ChoicesAre(x, |idx|, i); }
  }

  lemma ShuffledShort(idx: seq<nat>, seed: word)
    requires |idx| <= 1
    ensures Shuffled(idx, seed) == idx
  {
  }

  method ShuffleIndices(idx: array<nat>, seed: word)
    modifies idx
    ensures idx[..] == Shuffled(old(idx[..]), seed)
  {
    if idx.Length <= 1 {
      ShuffledShort(idx[..], seed);
      return;
    }
    ExchangeDown(idx, StartState(seed));
  }

  /** The loop of the shuffle, from the generator's first state. */
  method ExchangeDown(idx: array<nat>, first: word)
    requires idx.Length > 1
    modifies idx
    ensures idx[..] == Arrange(old(idx[..]), XorShiftChoices(first, idx.Length))
  {
    var state: word := first;
    var i := idx.Length - 1;
    ghost var goal := Arrange(idx[..], XorShiftChoices(state, idx.Length));
    ghost var settled := [];
    assert idx[..i + 1] == idx[..];
    while i > 0
      invariant 0 <= i < idx.Length && idx[i + 1..] == settled
      invariant Arrange(idx[..i + 1], XorShiftChoices(state, i + 1)) + settled == goal
    {
      ghost var js := XorShiftChoices(state, i + 1);
      state := XorShift(state);
      var j := state % (i + 1);
      LastChoice(js, state, i);
      Exchange(idx, i, j, js);
      Settle(Arrange(idx[..i], Front(js)), idx[i], settled, []);
      settled := [idx[i]] + settled;
      i := i - 1;
    }
    assert idx[..] == idx[..1] + idx[1..];
  }

  /** What one run reports. */
  datatype Report = Report(repeats: nat, accesses: word, checksum: word)

  function Repeats(target: word, count: nat): nat
    requires count > 0
  {
    if target / count == 0 then 1 else target / count
  }

  lemma BudgetParts(target: nat, count: nat)
    requires count > 0
    ensures target / count * count <= target < target / count * count + count
    ensures target < count <==> target / count == 0
  {
    if target < count { ModUnique(target, count, 0, target); }
  }

  /** The repeats use up the access budget, short of one pass, unless even one pass exceeds it. */
  lemma RepeatsFit(target: word, count: nat)
    requires count > 0
    ensures var reps := Repeats(target, count);
      if target < count then reps == 1 else target - count < reps * count <= target
  {
    BudgetParts(target, count);
  }

  predicate InBounds(arr: seq<word>, idx: seq<nat>) {
    forall i :: 0 <= i < |idx| ==> idx[i] < |arr|
  }

  function At(arr: seq<word>): nat -> nat {
    (i: nat) => if i < |arr| then arr[i] else 0
  }

  /** The sum of the elements one pass visits, as a mathematical number. */
  function PassTotal(arr: seq<word>, idx: seq<nat>): nat {
    Sum(idx, At(arr))
  }

  /** What the program reports for an index array, or nothing where it exits for want of an index. */
  function ReportOn(arr: seq<word>, idx: seq<nat>, target: word): Option<Report> {
    if |idx| == 0 then None
    else
      var reps := Repeats(target, |idx|);
      Some(Report(reps, Wrap(|idx| * reps), Wrap(reps * PassTotal(arr, idx))))
  }

  lemma SumStep(arr: seq<word>, idx: seq<nat>, i: nat)
    requires i < |idx| && InBounds(arr, idx)
    ensures Sum(idx[..i + 1], At(arr)) == Sum(idx[..i], At(arr)) + arr[idx[i]]
  {
    assert idx[..i + 1] == idx[..i] + [idx[i]];
    SumAppend(idx[..i], idx[i], At(arr));
  }

  /** One pass over the indices, adding to a wrapping sum. `loads` records the elements read, in order. */
  method Pass(arr: array<word>, idx: array<nat>, before: word, ghost base: nat)
    returns (sum: word, ghost loads: seq<nat>)
    requires InBounds(arr[..], idx[..]) && before == Wrap(base)
    ensures sum == Wrap(base + Sum(loads, At(arr[..])))
    ensures loads == idx[..]
  {
    sum, loads := before, [];
    var i := 0;
    while i < idx.Length
      invariant i <= idx.Length && loads == idx[..i]
      invariant sum == Wrap(base + Sum(loads, At(arr[..])))
    {
      SumStep(arr[..], idx[..], i);
      assert idx[..][..i + 1] == idx[..i + 1] && idx[..][..i] == idx[..i];
      ResidueAdd(base + Sum(loads, At(arr[..])), arr[idx[i]], TWO64);
      sum := Wrap(sum + arr[idx[i]]);
      loads := loads + [idx[i]];
      i := i + 1;
    }
  }

  /** The loop that is timed. */
  method MeasuredPasses(arr: array<word>, idx: array<nat>, reps: nat) returns (sum: word, ghost loads: seq<nat>)
    requires InBounds(arr[..], idx[..])
    ensures sum == Wrap(Sum(loads, At(arr[..])))
    ensures loads == Cycled(idx[..], reps)
  {
    sum, loads := 0, [];
    var r := 0;
    while r < reps
      invariant r <= reps && loads == Cycled(idx[..], r) && sum == Wrap(Sum(loads, At(arr[..])))
    {
      ghost var pass;
      ghost var before := Sum(loads, At(arr[..]));
      sum, pass := Pass(arr, idx, sum, before);
      SumConcat(loads, pass, At(arr[..]));
      loads := loads + pass;
      r := r + 1;
    }
  }

  /** `s`, `n` times over. */
  function Cycled(s: seq<nat>, n: nat): seq<nat> {
    if n == 0 then [] else Cycled(s, n - 1) + s
  }

  lemma {:induction false} CycledCounts(s: seq<nat>, n: nat, i: nat)
    ensures |Cycled(s, n)| == Times(|s|, n) && multiset(Cycled(s, n))[i] == Times(multiset(s)[i], n)
  {
    if n > 0 { CycledCounts(s, n - 1, i); }
  }

  lemma {:induction false} CycledSum(s: seq<nat>, n: nat, f: nat -> nat)
    ensures Sum(Cycled(s, n), f) == Times(Sum(s, f), n)
  {
    if n > 0 {
      CycledSum(s, n - 1, f);
      SumConcat(Cycled(s, n - 1), s, f);
    }
  }

  /** Every element of the index array has been loaded as often as it is listed there, times the repeats. */
  ghost predicate LoadedEach(loads: seq<nat>, idx: seq<nat>, reps: nat) {
    |loads| == reps * |idx| && forall i: nat :: multiset(loads)[i] == reps * multiset(idx)[i]
  }

  lemma CycledLoads(idx: seq<nat>, reps: nat)
    ensures LoadedEach(Cycled(idx, reps), idx, reps) && |Cycled(idx, reps)| == |idx| * reps
  {
    CycledCounts(idx, reps, 0);
    TimesIs(|idx|, reps);
    forall i: nat ensures multiset(Cycled(idx, reps))[i] == reps * multiset(idx)[i] {
      CycledCounts(idx, reps, i);
      TimesIs(multiset(idx)[i], reps);
    }
  }

  lemma CycledTotal(arr: seq<word>, idx: seq<nat>, reps: nat)
    ensures Sum(Cycled(idx, reps), At(arr)) == reps * PassTotal(arr, idx)
  {
    CycledSum(idx, reps, At(arr));
    TimesIs(PassTotal(arr, idx), reps);
  }

  /** A report and the loads it reports on. */
  ghost predicate Reports(r: Report, loads: seq<nat>, arr: seq<word>, idx: seq<nat>, target: word)
    requires |idx| > 0
  {
    && r.repeats == (if target < |idx| then 1 else target / |idx|)
    && LoadedEach(loads, idx, r.repeats)
    && r.accesses == Wrap(|loads|)
    && r.checksum == Wrap(Sum(loads, At(arr)))
  }

  lemma ReportIs(arr: seq<word>, idx: seq<nat>, target: word, r: Report)
    requires |idx| > 0 && r.repeats == Repeats(target, |idx|)
    requires r.accesses == Wrap(|idx| * r.repeats) && r.checksum == Wrap(Sum(Cycled(idx, r.repeats), At(arr)))
    ensures Reports(r, Cycled(idx, r.repeats), arr, idx, target)
    ensures Some(r) == ReportOn(arr, idx, target)
  {
    BudgetParts(target, |idx|);
    CycledLoads(idx, r.repeats);
    CycledTotal(arr, idx, r.repeats);
  }

  method BudgetRepeats(target: word, count: nat) returns (reps: nat)
    requires count > 0
    ensures reps == Repeats(target, count)
  {
    reps := target / count;
    if reps == 0 {
      reps := 1;
    }
  }

  /**
   * The warm-up pass, then the measured passes. `sink` is the global both sums are folded into; `warmLoads`
   * and `loads` record the elements read before the clock starts and while it runs.
   */
  method RunBenchmark(arr: array<word>, idx: array<nat>, target: word, sink: word)
    returns (result: Option<Report>, sink': word, ghost warmLoads: seq<nat>, ghost loads: seq<nat>)
    requires InBounds(arr[..], idx[..])
    ensures result.None? <==> idx.Length == 0
    ensures result.None? ==> sink' == sink && warmLoads == loads == []
    ensures result.Some? ==> Reports(result.value, loads, arr[..], idx[..], target)
    ensures result.Some? ==> warmLoads == idx[..]
    ensures result.Some? ==>
      sink' == XorWord(XorWord(sink, Wrap(Sum(warmLoads, At(arr[..])))), result.value.checksum)
    ensures result == ReportOn(arr[..], idx[..], target)
  {
    warmLoads, loads := [], [];
    if idx.Length == 0 {
      return None, sink, [], [];
    }
    var reps := BudgetRepeats(target, idx.Length);
    var warm, sum;
    warm, warmLoads := Pass(arr, idx, 0, 0);
    sink' := XorWord(sink, warm);
    sum, loads := MeasuredPasses(arr, idx, reps);
    sink' := XorWord(sink', sum);
    result := Some(Report(reps, Wrap(idx.Length * reps), sum));
    ReportIs(arr[..], idx[..], target, result.value);
  }

  /** The random run visits the same positions as the sequential one, each as often. */
  lemma ShuffledVisitsTheSame(idx: seq<nat>, seed: word)
    ensures |Shuffled(idx, seed)| == |idx| && multiset(Shuffled(idx, seed)) == multiset(idx)
  {
    ArrangeIsPermutation(idx, XorShiftChoices(StartState(seed), |idx|));
  }

  lemma ShuffledInBounds(arr: seq<word>, idx: seq<nat>, seed: word)
    requires InBounds(arr, idx)
    ensures InBounds(arr, Shuffled(idx, seed))
  {
    var t := Shuffled(idx, seed);
    ShuffledVisitsTheSame(idx, seed);
    forall i | 0 <= i < |t| ensures t[i] < |arr| {
      assert t[i] in multiset(t) && t[i] in idx;
    }
  }

  /** Sequential and random order report the same repeats, accesses and checksum, for every seed. */
  lemma OrderDoesNotMatter(arr: seq<word>, idx: seq<nat>, target: word, seed: word)
    ensures ReportOn(arr, Shuffled(idx, seed), target) == ReportOn(arr, idx, target)
  {
    ShuffledVisitsTheSame(idx, seed);
    SumOfPermutation(Shuffled(idx, seed), idx, At(arr));
  }

  lemma PositionsInBounds(arr: seq<word>, stride: nat)
    requires stride > 0
    ensures InBounds(arr, Positions(|arr|, stride))
  {
    forall k | 0 <= k < CeilDiv(|arr|, stride) ensures k * stride < |arr| {
      CeilDivCounts(|arr|, stride, k);
    }
  }

  /** One configuration of the lab: build the indices, shuffle them if the pattern is random, measure. */
  method Experiment(arr: array<word>, stride: nat, random: bool, seed: word, target: word)
    returns (result: Option<Report>)
    requires stride > 0
    ensures arr.Length == 0 <==> result.None?
    ensures result == ReportOn(arr[..], Positions(arr.Length, stride), target)
  {
    var idx := BuildIndices(arr.Length, stride);
    PositionsInBounds(arr[..], stride);
    if random {
      ShuffledInBounds(arr[..], idx[..], seed);
      OrderDoesNotMatter(arr[..], idx[..], target, seed);
      ShuffleIndices(idx, seed);
    }
    CeilDivCounts(arr.Length, stride, 0);
    var sink;
    ghost var warmLoads, loads;
    result, sink, warmLoads, loads := RunBenchmark(arr, idx, target, 0);
  }
}
