/** The whole prefetch lab: fill the array, build and shuffle the indices, measure; and the checksum in closed form. */
module PrefetchLab {
  import opened Bits
  import opened Folds
  import opened Prefetch
  import opened Strides
  import opened Word64
  import opened Wrappers

  const FACTOR: nat := 1315423911
  const OFFSET: nat := 0x9e37_79b9_7f4a_7c15
  const SEED: word := 0xdead_beef_cafe_babe

  method InitArray(arr: array<word>)
    modifies arr
    ensures forall i :: 0 <= i < arr.Length ==> arr[i] == Wrap(i * FACTOR + OFFSET)
  {
    var i := 0;
    while i < arr.Length
      invariant i <= arr.Length
      invariant forall k :: 0 <= k < i ==> arr[k] == Wrap(k * FACTOR + OFFSET)
    {
      arr[i] := Wrap(i * FACTOR + OFFSET);
      i := i + 1;
    }
  }

  /** What the array holds at the `k`th position visited, before wrapping. */
  function Visited(stride: nat): nat -> nat {
    (k: nat) => k * stride * FACTOR + OFFSET
  }

  function Stored(stride: nat): nat -> nat {
    (k: nat) => Wrap(k * stride * FACTOR + OFFSET)
  }

  lemma AddWrapped(a: nat, b: nat)
    ensures Wrap(Wrap(a) + Wrap(b)) == Wrap(a + b)
  {
    ResidueAdd(a, Wrap(b), TWO64);
    ResidueAdd(b, a, TWO64);
  }

  /** Adding up wrapped values wraps to what adding up the values does. */
  lemma {:induction false} WrapOfSum(n: nat, f: nat -> nat, g: nat -> nat)
    requires forall k: nat :: k < n ==> g(k) == Wrap(f(k))
    ensures Wrap(SumTo(n, g)) == Wrap(SumTo(n, f))
  {
    if n > 0 {
      WrapOfSum(n - 1, f, g);
      ResidueAdd(SumTo(n - 1, g), g(n - 1), TWO64);
      AddWrapped(SumTo(n - 1, f), f(n - 1));
    }
  }

  /** 0 + 1 + ... + (n - 1) */
  function Triangle(n: nat): nat { if n == 0 then 0 else Triangle(n - 1) + n - 1 }

  lemma {:induction false} TriangleIs(n: nat)
    ensures 2 * Triangle(n) == n * (n - 1)
  {
    if n > 0 {
      TriangleIs(n - 1);
      assert n * (n - 1) == (n - 1) * (n - 1 - 1) + 2 * (n - 1);
    }
  }

  lemma NextTerm(k: nat, step: nat, t: nat)
    ensures step * (t + k) == step * t + k * step
  {
  }

  lemma Product(k: nat, stride: nat)
    ensures k * stride * FACTOR == k * (FACTOR * stride)
  {
  }

  lemma {:induction false} VisitedSum(n: nat, stride: nat)
    ensures SumTo(n, Visited(stride)) == FACTOR * stride * Triangle(n) + OFFSET * n
  {
    if n > 0 {
      VisitedSum(n - 1, stride);
      Product(n - 1, stride);
      NextTerm(n - 1, FACTOR * stride, Triangle(n - 1));
      assert Visited(stride)(n - 1) == (n - 1) * stride * FACTOR + OFFSET;
    }
  }

  lemma VisitStored(arr: seq<word>, stride: nat, k: nat)
    requires stride > 0 && k < CeilDiv(|arr|, stride)
    requires forall i :: 0 <= i < |arr| ==> arr[i] == Wrap(i * FACTOR + OFFSET)
    ensures At(arr)(Positions(|arr|, stride)[k]) == Stored(stride)(k)
  {
    CeilDivCounts(|arr|, stride, k);
    var i := k * stride;
    assert arr[i] == Wrap(i * FACTOR + OFFSET);
  }

  /** A pass over the array as it is filled. */
  lemma PassOfStored(arr: seq<word>, stride: nat)
    requires stride > 0 && forall i :: 0 <= i < |arr| ==> arr[i] == Wrap(i * FACTOR + OFFSET)
    ensures Wrap(PassTotal(arr, Positions(|arr|, stride)))
         == Wrap(FACTOR * stride * Triangle(CeilDiv(|arr|, stride)) + OFFSET * CeilDiv(|arr|, stride))
  {
    var s, n := Positions(|arr|, stride), CeilDiv(|arr|, stride);
    forall k: nat | k < n ensures Stored(stride)(k) == At(arr)(s[k]) { VisitStored(arr, stride, k); }
    SumByPlace(s, n, At(arr), Stored(stride));
    assert s[..n] == s;
    WrapOfSum(n, Visited(stride), Stored(stride));
    VisitedSum(n, stride);
  }

  lemma {:induction false} WrapOfTimes(a: nat, b: nat, reps: nat)
    requires Wrap(a) == Wrap(b)
    ensures Wrap(Times(a, reps)) == Wrap(Times(b, reps))
  {
    if reps > 0 {
      WrapOfTimes(a, b, reps - 1);
      AddWrapped(Times(a, reps - 1), a);
      AddWrapped(Times(b, reps - 1), b);
    }
  }

  lemma ClosedForm(arr: seq<word>, stride: nat, reps: nat, closed: nat)
    requires stride > 0 && forall i :: 0 <= i < |arr| ==> arr[i] == Wrap(i * FACTOR + OFFSET)
    requires closed == FACTOR * stride * Triangle(CeilDiv(|arr|, stride)) + OFFSET * CeilDiv(|arr|, stride)
    ensures Wrap(reps * PassTotal(arr, Positions(|arr|, stride))) == Wrap(reps * closed)
  {
    var total := PassTotal(arr, Positions(|arr|, stride));
    PassOfStored(arr, stride);
    WrapOfTimes(total, closed, reps);
    TimesIs(total, reps);
    TimesIs(closed, reps);
  }

  /** The report on `count` positions visited. */
  predicate LabReport(r: Report, count: nat, stride: nat, target: word)
    requires count > 0
  {
    && r.repeats == (if target < count then 1 else target / count)
    && r.accesses == Wrap(count * r.repeats)
    && r.checksum == Wrap(r.repeats * (1315423911 * stride * Triangle(count) + 0x9e37_79b9_7f4a_7c15 * count))
  }

  /**
   * The program on an array of `elems` elements. Whatever the pattern, the checksum is the arithmetic
   * series of the values visited, once for each repeat.
   */
  method Lab(elems: nat, stride: nat, random: bool, target: word) returns (result: Option<Report>)
    requires stride > 0
    ensures result.None? <==> elems == 0
    ensures result.Some? ==> CeilDiv(elems, stride) > 0
    ensures result.Some? ==> LabReport(result.value, CeilDiv(elems, stride), stride, target)
  {
    var arr := new word[elems];
    InitArray(arr);
    result := Experiment(arr, stride, random, SEED, target);
    if result.Some? {
      var count := CeilDiv(elems, stride);
      CeilDivCounts(elems, stride, 0);
      BudgetParts(target, count);
      ClosedForm(arr[..], stride, result.value.repeats, FACTOR * stride * Triangle(count) + OFFSET * count);
    }
  }
}
