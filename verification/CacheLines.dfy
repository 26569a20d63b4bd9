/** The cache-line lab: which 64-byte lines one repetition touches, and the closed form that counts them. */
module CacheLines {
  import opened Strides
  import opened Word64

  const LINE: nat := 64

  /** Where step `k` starts. */
  function Start(k: nat, stride: nat): nat {
    if k == 0 then 0 else Start(k - 1, stride) + stride
  }

  function First(k: nat, stride: nat): nat { Start(k, stride) / LINE }

  /** The line of the last of the `width` bytes step `k` accesses. */
  function Last(k: nat, stride: nat, width: nat): nat
    requires width > 0
  {
    (Start(k, stride) + width - 1) / LINE
  }

  /** Byte `b` is accessed by one of the first `n` steps; a sparse step is one byte wide. */
  ghost predicate Accessed(n: nat, stride: nat, width: nat, b: nat) {
    exists k: nat :: k < n && Start(k, stride) <= b < Start(k, stride) + width
  }

  function LinesOf(bytes: set<nat>): set<nat> {
    set b | b in bytes :: b / LINE
  }

  function Range(a: nat, b: nat): set<nat>
    decreases b + 1 - a
  {
    if a > b then {} else {a} + Range(a + 1, b)
  }

  lemma {:induction false} InRange(a: nat, b: nat, l: nat)
    ensures l in Range(a, b) <==> a <= l <= b
    decreases b + 1 - a
  {
    if a <= b { InRange(a + 1, b, l); }
  }

  lemma RangeIs(a: nat, b: nat)
    ensures forall l :: l in Range(a, b) <==> a <= l <= b
  {
    forall l: nat ensures l in Range(a, b) <==> a <= l <= b { InRange(a, b, l); }
  }

  function Lines(n: nat, stride: nat, width: nat): set<nat>
    requires width > 0
  {
    if n == 0 then {}
    else Lines(n - 1, stride, width) + Range(First(n - 1, stride), Last(n - 1, stride, width))
  }

  lemma {:induction false} LineHasStep(n: nat, stride: nat, width: nat, l: nat) returns (k: nat)
    requires width > 0 && l in Lines(n, stride, width)
    ensures k < n && First(k, stride) <= l <= Last(k, stride, width)
  {
    InRange(First(n - 1, stride), Last(n - 1, stride, width), l);
    if First(n - 1, stride) <= l <= Last(n - 1, stride, width) {
      k := n - 1;
    } else {
      k := LineHasStep(n - 1, stride, width, l);
    }
  }

  lemma {:induction false} StepHasLines(n: nat, stride: nat, width: nat, k: nat, l: nat)
    requires width > 0 && k < n && First(k, stride) <= l <= Last(k, stride, width)
    ensures l in Lines(n, stride, width)
  {
    InRange(First(n - 1, stride), Last(n - 1, stride, width), l);
    if k < n - 1 { StepHasLines(n - 1, stride, width, k, l); }
  }

  /** The lines counted below are the lines of the bytes accessed. */
  lemma LinesAreTouched(n: nat, stride: nat, width: nat, bytes: set<nat>)
    requires width > 0 && forall b: nat :: b in bytes <==> Accessed(n, stride, width, b)
    ensures LinesOf(bytes) == Lines(n, stride, width)
  {
    forall l | l in LinesOf(bytes) ensures l in Lines(n, stride, width) {
      var b :| b in bytes && b / LINE == l;
      var k: nat :| k < n && Start(k, stride) <= b < Start(k, stride) + width;
      StepHasLines(n, stride, width, k, l);
    }
    forall l | l in Lines(n, stride, width) ensures l in LinesOf(bytes) {
      var k := LineHasStep(n, stride, width, l);
      var b := if l == First(k, stride) then Start(k, stride) else l * LINE;
      assert Accessed(n, stride, width, b);
      assert b in bytes && b / LINE == l;
    }
  }

  lemma OneMore(lines: set<nat>, a: nat)
    requires a !in lines
    ensures |{a} + lines| == |lines| + 1
  {
    assert {a} + lines == lines + {a};
  }

  lemma {:induction false} RangeSize(a: nat, b: nat)
    requires a <= b + 1
    ensures |Range(a, b)| == b + 1 - a
    decreases b + 1 - a
  {
    if a <= b {
      RangeSize(a + 1, b);
      InRange(a + 1, b, a);
      OneMore(Range(a + 1, b), a);
    }
  }

  lemma AddAbove(lines: set<nat>, a: nat, b: nat)
    requires a <= b + 1 && forall l :: l in lines ==> l < a
    ensures |lines + Range(a, b)| == |lines| + (b + 1 - a)
  {
    RangeSize(a, b);
    RangeIs(a, b);
    assert lines !! Range(a, b);
  }

  lemma Absorb(lines: set<nat>, a: nat, more: set<nat>)
    requires a in lines
    ensures lines + ({a} + more) == lines + more
  {
  }

  /** Lines `a` to `b` are new, except that `a` may be the last one there was. */
  lemma AddFrom(lines: set<nat>, last: nat, a: nat, b: nat)
    requires last in lines && (forall l :: l in lines ==> l <= last) && last <= a <= b
    ensures |lines + Range(a, b)| == |lines| + (b + 1 - a) - if a == last then 1 else 0
  {
    if a == last {
      AddAbove(lines, a + 1, b);
      Absorb(lines, a, Range(a + 1, b));
    } else {
      AddAbove(lines, a, b);
    }
  }

  /** The touched lines lie up to the last one of the last step, which is among them. */
  lemma {:induction false} LinesEnd(n: nat, stride: nat, width: nat)
    requires width > 0 && n > 0
    ensures Last(n - 1, stride, width) in Lines(n, stride, width)
    ensures forall l :: l in Lines(n, stride, width) ==> l <= Last(n - 1, stride, width)
  {
    RangeIs(First(n - 1, stride), Last(n - 1, stride, width));
    if n > 1 { LinesEnd(n - 1, stride, width); }
  }

  /** One more step adds its lines, short of the one it may share with the step before. */
  lemma OneMoreStep(n: nat, stride: nat, width: nat)
    requires width > 0 && n > 0 && First(n, stride) >= Last(n - 1, stride, width)
    ensures |Lines(n + 1, stride, width)| == |Lines(n, stride, width)|
      + Last(n, stride, width) + 1 - First(n, stride)
      - (if First(n, stride) == Last(n - 1, stride, width) then 1 else 0)
  {
    LinesEnd(n, stride, width);
    AddFrom(Lines(n, stride, width), Last(n - 1, stride, width), First(n, stride), Last(n, stride, width));
  }

  /** Steps shorter than a line leave no line out. */
  lemma {:induction false} ShortStepsFill(n: nat, stride: nat, width: nat)
    requires width > 0 && 0 < stride <= LINE && n > 0
    ensures Lines(n, stride, width) == Range(0, Last(n - 1, stride, width))
  {
    var last := Last(n - 1, stride, width);
    RangeIs(0, last);
    RangeIs(First(n - 1, stride), last);
    if n > 1 {
      ShortStepsFill(n - 1, stride, width);
      RangeIs(0, Last(n - 2, stride, width));
      assert First(n - 1, stride) <= Last(n - 2, stride, width) + 1 <= last + 1;
    }
  }

  /** How many lines `width` bytes fill when they start a line. */
  function LinesPerStep(width: nat): nat { CeilDiv(width, LINE) }

  /** A step spills into one line more than it would if it started one. */
  predicate Straddles(k: nat, stride: nat, width: nat)
    requires width > 0
  {
    Start(k, stride) % LINE + (width - 1) % LINE >= LINE
  }

  lemma StepSpans(k: nat, stride: nat, width: nat)
    requires width > 0
    ensures Last(k, stride, width) + 1 - First(k, stride)
         == LinesPerStep(width) + if Straddles(k, stride, width) then 1 else 0
  {
  }

  /** Halving both while both are even: for a power of two `line`, the greatest common divisor. */
  function CommonPower(x: nat, line: nat): nat {
    if line <= 1 || x % 2 == 1 then 1 else 2 * CommonPower(x / 2, line / 2)
  }

  /** The largest power of two, up to a line, that divides the stride: what all steps are aligned to. */
  function Granule(stride: nat): nat {
    CommonPower(stride, LINE)
  }

  lemma Doubled(half: nat, p: nat, m: nat)
    requires half == p * m
    ensures 2 * half == (2 * p) * m
  {
  }

  lemma {:induction false} CommonPowerParts(x: nat, i: nat) returns (j: nat, m: nat)
    ensures j <= i && CommonPower(x, Pow2(i)) == Pow2(i - j) && x == Pow2(i - j) * m
    ensures j == 0 || m % 2 == 1
  {
    if i == 0 {
      j, m := 0, x;
    } else if x % 2 == 1 {
      j, m := i, x;
    } else {
      assert Pow2(i) / 2 == Pow2(i - 1);
      j, m := CommonPowerParts(x / 2, i - 1);
      Doubled(x / 2, Pow2(i - 1 - j), m);
    }
  }

  /** A line is `h` granules, a stride `m` of them; `m` is odd unless a granule is a line. */
  lemma GranuleParts(stride: nat) returns (j: nat, h: nat, m: nat)
    ensures h == Pow2(j) && h * Granule(stride) == LINE && stride == Granule(stride) * m
    ensures Granule(stride) == LINE || m % 2 == 1
  {
    assert Pow2(6) == LINE;
    j, m := CommonPowerParts(stride, 6);
    h := Pow2(j);
    Pow2Add(j, 6 - j);
  }

  lemma Regroup(g: nat, h: nat, t: nat, r: nat)
    ensures g * (h * t + r) == (h * g) * t + g * r
  {
    assert g * (h * t) == (h * g) * t;
  }

  lemma MultipleOffset(g: nat, h: nat, q: nat)
    requires h * g == LINE && h > 0
    ensures (g * q) % LINE <= LINE - g
  {
    var t, r := q / h, q % h;
    Regroup(g, h, t, r);
    MulAtMost(g, r, h - 1);
    assert g * (h - 1) == h * g - g;
    ModUnique(g * q, LINE, t, g * r);
  }

  lemma MulAssociates(k: nat, g: nat, m: nat)
    ensures k * (g * m) == g * (k * m)
  {
  }

  /** No step starts later in its line than the granule allows. */
  lemma StartsAligned(k: nat, stride: nat)
    ensures Start(k, stride) % LINE <= LINE - Granule(stride)
  {
    var j, h, m := GranuleParts(stride);
    StartIs(k, stride);
    MulAssociates(k, Granule(stride), m);
    MultipleOffset(Granule(stride), h, k * m);
  }

  lemma {:induction false} StartIs(k: nat, stride: nat)
    ensures Start(k, stride) == k * stride
  {
    if k > 0 { StartIs(k - 1, stride); }
  }

  lemma ReachFurther(k: nat, t: nat, m: nat, p: nat) returns (k': nat, t': nat)
    requires m % 2 == 1 && k < p && k * m == p * t + p - 1
    ensures k' < 2 * p && k' * m == 2 * p * t' + 2 * p - 1
  {
    var u, v := t / 2, m / 2;
    if t % 2 == 1 {
      assert p * t == 2 * p * u + p by { assert t == 2 * u + 1; }
      k', t' := k, u;
    } else {
      assert p * t == 2 * p * u by { assert t == 2 * u; }
      assert p * m == 2 * p * v + p by { assert m == 2 * v + 1; }
      assert (k + p) * m == k * m + p * m;
      assert 2 * p * (u + v) == 2 * p * u + 2 * p * v;
      k', t' := k + p, u + v;
    }
  }

  /** The multiples of an odd number reach the last residue of every power of two. */
  lemma {:induction false} OddReaches(m: nat, j: nat) returns (k: nat, t: nat)
    requires m % 2 == 1
    ensures k < Pow2(j) && k * m == Pow2(j) * t + Pow2(j) - 1
  {
    if j == 0 {
      k, t := 0, 0;
    } else {
      k, t := OddReaches(m, j - 1);
      k, t := ReachFurther(k, t, m, Pow2(j - 1));
    }
  }

  /** Some step starts as late in its line as the granule allows. */
  lemma LatestStart(stride: nat) returns (k: nat)
    ensures k < LINE && Start(k, stride) % LINE == LINE - Granule(stride)
  {
    if Granule(stride) == LINE {
      k := 0;
    } else {
      var j, h, m := GranuleParts(stride);
      var t;
      k, t := OddReaches(m, j);
      StartIs(k, stride);
      Scale(Granule(stride), h, m, k, t);
    }
  }

  lemma Scale(g: nat, h: nat, m: nat, k: nat, t: nat)
    requires g > 0 && h * g == LINE && k < h && k * m == h * t + h - 1
    ensures k < LINE && (k * (g * m)) % LINE == LINE - g
  {
    assert h <= h * g;
    assert k * (g * m) == g * (k * m);
    assert g * (h * t + h - 1) == (h * g) * t + h * g - g;
    ModUnique(k * (g * m), LINE, t, LINE - g);
  }

  /**
   * When a stride of a line or more is long enough for its steps' lines, and their start offsets small
   * enough that none spills over.
   */
  predicate Fits(stride: nat, width: nat)
    requires width > 0
  {
    stride >= LINE * LinesPerStep(width) && (width - 1) % LINE + 1 <= Granule(stride)
  }

  lemma FittingStep(k: nat, stride: nat, width: nat)
    requires width > 0 && Fits(stride, width)
    ensures !Straddles(k, stride, width)
    ensures First(k + 1, stride) > Last(k, stride, width)
  {
    StartsAligned(k, stride);
    StepSpans(k, stride, width);
  }

  /** Then every step touches its own `LinesPerStep` lines. */
  lemma {:induction false} FittingStepsAddUp(n: nat, stride: nat, width: nat)
    requires width > 0 && Fits(stride, width)
    ensures |Lines(n, stride, width)| == n * LinesPerStep(width)
  {
    if n == 1 {
      FittingStep(0, stride, width);
      FirstStep(stride, width);
    } else if n > 1 {
      FittingStepsAddUp(n - 1, stride, width);
      FittingStep(n - 2, stride, width);
      FittingStep(n - 1, stride, width);
      OneMoreStep(n - 1, stride, width);
      StepSpans(n - 1, stride, width);
      assert n * LinesPerStep(width) == (n - 1) * LinesPerStep(width) + LinesPerStep(width);
    }
  }

  lemma FirstStep(stride: nat, width: nat)
    requires width > 0
    ensures |Lines(1, stride, width)| == LinesPerStep(width)
    ensures !Straddles(0, stride, width)
  {
    assert Lines(1, stride, width) == Lines(0, stride, width) + Range(0, Last(0, stride, width));
    assert Lines(1, stride, width) == Range(0, Last(0, stride, width));
    RangeSize(0, Last(0, stride, width));
  }

  lemma CloseBound(n: nat, c: nat, start: nat, stride: nat, width: nat)
    requires n > LINE && start == (n - 1) * stride && stride + 1 <= LINE * c && 0 < width <= LINE * c
    ensures (start + width - 1) / LINE + 1 < n * c
  {
    MulAtMost(n - 1, stride, LINE * c - 1);
    assert (n - 1) * (LINE * c - 1) == LINE * (n * c - c) - (n - 1) by {
      assert (n - 1) * (LINE * c) == LINE * ((n - 1) * c);
      assert (n - 1) * c == n * c - c;
    }
  }

  /** Too short a stride: in the long run neighbouring steps share lines. */
  lemma CloseStepsShare(n: nat, stride: nat, width: nat)
    requires width > 0 && n > LINE && stride < LINE * LinesPerStep(width)
    ensures |Lines(n, stride, width)| < n * LinesPerStep(width)
  {
    var last := Last(n - 1, stride, width);
    LinesEnd(n, stride, width);
    RangeSize(0, last);
    RangeIs(0, last);
    SubsetSize(Lines(n, stride, width), Range(0, last));
    StartIs(n - 1, stride);
    CloseBound(n, LinesPerStep(width), Start(n - 1, stride), stride, width);
  }

  lemma MulAtMost(a: nat, b: int, c: int)
    requires b <= c
    ensures a * b <= a * c
  {
    assert a * c - a * b == a * (c - b);
  }

  lemma {:induction false} SubsetSize(a: set<nat>, b: set<nat>)
    requires a <= b
    ensures |a| <= |b|
    decreases |b|
  {
    if x :| x in a {
      SubsetSize(a - {x}, b - {x});
    }
  }

  function Spill(k: nat, stride: nat, width: nat): nat
    requires width > 0
  {
    if Straddles(k, stride, width) then 1 else 0
  }

  /** With a long enough stride, only a step that spills over can share a line with the next. */
  lemma SharesOnlyItsSpill(k: nat, stride: nat, width: nat)
    requires width > 0 && stride >= LINE * LinesPerStep(width)
    ensures First(k + 1, stride) >= Last(k, stride, width)
    ensures First(k + 1, stride) == Last(k, stride, width) ==> Straddles(k, stride, width)
  {
    StepSpans(k, stride, width);
  }

  /** How many lines the first `n` steps touch beyond the estimate, not counting the last step's spill. */
  function Margin(n: nat, stride: nat, width: nat): int
    requires width > 0 && n > 0
  {
    |Lines(n, stride, width)| - n * LinesPerStep(width) - Spill(n - 1, stride, width)
  }

  /** A step adds its lines, and shares one only if the step before spilled over. */
  lemma MarginStep(n: nat, stride: nat, width: nat)
    requires width > 0 && stride >= LINE * LinesPerStep(width) && n >= 1
    ensures Margin(n + 1, stride, width) == Margin(n, stride, width)
      + Spill(n - 1, stride, width) - (if First(n, stride) == Last(n - 1, stride, width) then 1 else 0)
  {
    SharesOnlyItsSpill(n - 1, stride, width);
    OneMoreStep(n, stride, width);
    StepSpans(n, stride, width);
    assert (n + 1) * LinesPerStep(width) == n * LinesPerStep(width) + LinesPerStep(width);
  }

  lemma MarginKept(n: nat, stride: nat, width: nat)
    requires width > 0 && stride >= LINE * LinesPerStep(width) && n >= 1
    ensures Margin(n + 1, stride, width) >= Margin(n, stride, width)
  {
    MarginStep(n, stride, width);
    SharesOnlyItsSpill(n - 1, stride, width);
  }

  /** A surplus of lines is never lost again. */
  lemma {:induction false} MarginGrows(m: nat, n: nat, stride: nat, width: nat)
    requires width > 0 && stride >= LINE * LinesPerStep(width) && 1 <= m <= n
    ensures Margin(n, stride, width) >= Margin(m, stride, width)
  {
    if m < n {
      MarginGrows(m, n - 1, stride, width);
      MarginKept(n - 1, stride, width);
    }
  }

  /** The step that starts latest in its line spills, and the next one clears the spill. */
  lemma LatestSpills(k: nat, stride: nat, width: nat)
    requires width > 0 && stride >= LINE * LinesPerStep(width) && !Fits(stride, width)
    requires Start(k, stride) % LINE == LINE - Granule(stride)
    ensures Straddles(k, stride, width) && First(k + 1, stride) > Last(k, stride, width)
  {
    var g, c := Granule(stride), LinesPerStep(width);
    AlignedGap(stride, c);
    StepSpans(k, stride, width);
  }

  lemma AlignedGap(stride: nat, c: nat)
    requires Granule(stride) != LINE && stride >= LINE * c
    ensures stride >= LINE * c + Granule(stride)
  {
    var _, h, m := GranuleParts(stride);
    var g := Granule(stride);
    assert stride != LINE * c by { ModUnique(LINE * c, LINE, c, 0); }
    assert LINE * c == g * (h * c);
    if m <= h * c { MulAtMost(g, m, h * c); }
    MulAtMost(g, h * c + 1, m);
  }

  /** Long enough strides whose steps sometimes spill: more lines than estimated. */
  lemma SpillsAddUp(n: nat, stride: nat, width: nat)
    requires width > 0 && n > LINE && stride >= LINE * LinesPerStep(width) && !Fits(stride, width)
    ensures |Lines(n, stride, width)| > n * LinesPerStep(width)
  {
    var k := LatestStart(stride);
    LatestSpills(k, stride, width);
    FirstStep(stride, width);
    assert Margin(1, stride, width) == 0;
    MarginGrows(1, k + 1, stride, width);
    MarginStep(k + 1, stride, width);
    MarginGrows(k + 2, n, stride, width);
  }

  datatype Mode = Sparse | Dense(bytes: nat)

  function Width(mode: Mode): nat { if mode.Dense? then mode.bytes else 1 }

  /** What the program accepts: it exits on an empty or oversized dense window. */
  predicate Accepted(size: nat, mode: Mode) {
    mode.Dense? ==> 0 < mode.bytes <= size
  }

  function MaxIndex(size: nat, mode: Mode): nat
    requires Accepted(size, mode)
  {
    if mode.Dense? then size - mode.bytes + 1 else size
  }

  function Steps(size: nat, stride: nat, mode: Mode): nat
    requires stride > 0 && Accepted(size, mode)
  {
    CeilDiv(MaxIndex(size, mode), stride)
  }

  /** `estimate_lines_per_rep` */
  function EstimateLines(size: nat, stride: nat, mode: Mode, steps: nat): nat {
    if stride < LINE then CeilDiv(size, LINE)
    else steps * (if mode.Dense? then CeilDiv(mode.bytes, LINE) else 1)
  }

  function Estimate(size: nat, stride: nat, mode: Mode): nat
    requires stride > 0 && Accepted(size, mode)
  {
    EstimateLines(size, stride, mode, Steps(size, stride, mode))
  }

  function TouchedLines(size: nat, stride: nat, mode: Mode): nat
    requires stride > 0 && Accepted(size, mode)
  {
    |Lines(Steps(size, stride, mode), stride, Width(mode))|
  }

  /** The loop's own test agrees with the step count computed beforehand. */
  lemma StepsFit(size: nat, stride: nat, mode: Mode, k: nat)
    requires stride > 0 && Accepted(size, mode)
    ensures k < Steps(size, stride, mode) <==> Start(k, stride) < MaxIndex(size, mode)
  {
    StartIs(k, stride);
    CeilDivCounts(MaxIndex(size, mode), stride, k);
  }

  lemma LastLineOfRegion(size: nat, stride: nat, mode: Mode)
    requires 0 < stride < LINE && size > 0 && size % LINE == 0 && Accepted(size, mode)
    ensures Steps(size, stride, mode) > 0
    ensures Last(Steps(size, stride, mode) - 1, stride, Width(mode)) == size / LINE - 1
  {
    var n := Steps(size, stride, mode);
    StepsFit(size, stride, mode, 0);
    StepsFit(size, stride, mode, n - 1);
    StepsFit(size, stride, mode, n);
  }

  /** Below a line, in either mode, the estimate is exact. */
  lemma ShortStrideExact(size: nat, stride: nat, mode: Mode)
    requires 0 < stride < LINE && size > 0 && size % LINE == 0 && Accepted(size, mode)
    ensures Estimate(size, stride, mode) == TouchedLines(size, stride, mode)
  {
    LastLineOfRegion(size, stride, mode);
    ShortStepsFill(Steps(size, stride, mode), stride, Width(mode));
    RangeSize(0, size / LINE - 1);
  }

  lemma EstimateOfLongStride(size: nat, stride: nat, mode: Mode)
    requires stride >= LINE && Accepted(size, mode)
    ensures Estimate(size, stride, mode) == Steps(size, stride, mode) * LinesPerStep(Width(mode))
  {
  }

  /** Sparse steps of any stride: the estimate is exact. */
  lemma SparseExact(size: nat, stride: nat)
    requires stride > 0 && size > 0 && size % LINE == 0
    ensures Estimate(size, stride, Sparse) == TouchedLines(size, stride, Sparse)
  {
    if stride < LINE {
      ShortStrideExact(size, stride, Sparse);
    } else {
      var j, h, m := GranuleParts(stride);
      FittingStepsAddUp(Steps(size, stride, Sparse), stride, 1);
      EstimateOfLongStride(size, stride, Sparse);
    }
  }

  /**
   * Dense steps of a line or more: exact where the steps fit; where they do not, wrong for every region
   * of more than 64 steps, above the truth if the stride is too short and below it otherwise.
   */
  lemma DenseVerdict(size: nat, stride: nat, bytes: nat)
    requires stride >= LINE && 0 < bytes <= size
    ensures Fits(stride, bytes) ==> Estimate(size, stride, Dense(bytes)) == TouchedLines(size, stride, Dense(bytes))
    ensures Steps(size, stride, Dense(bytes)) > LINE && !Fits(stride, bytes) ==>
      if stride < LINE * LinesPerStep(bytes)
      then Estimate(size, stride, Dense(bytes)) > TouchedLines(size, stride, Dense(bytes))
      else Estimate(size, stride, Dense(bytes)) < TouchedLines(size, stride, Dense(bytes))
  {
    var n := Steps(size, stride, Dense(bytes));
    EstimateOfLongStride(size, stride, Dense(bytes));
    if Fits(stride, bytes) {
      FittingStepsAddUp(n, stride, bytes);
    } else if n > LINE {
      if stride < LINE * LinesPerStep(bytes) {
        CloseStepsShare(n, stride, bytes);
      } else {
        SpillsAddUp(n, stride, bytes);
      }
    }
  }

  /** Region sizes are given in MiB. */
  const MIB: nat := 0x10_0000

  lemma LargeEnough(stride: nat, bytes: nat) returns (mb: nat)
    requires stride >= LINE && bytes > 0
    ensures mb > 0 && bytes <= mb * MIB && Steps(mb * MIB, stride, Dense(bytes)) > LINE
  {
    mb := LINE * stride + bytes;
    StepsFit(mb * MIB, stride, Dense(bytes), LINE);
    StartIs(LINE, stride);
  }

  /** The estimate can be trusted for a dense stride of a line or more, whatever the region, iff the steps fit. */
  lemma DenseExactIff(stride: nat, bytes: nat)
    requires stride >= LINE && bytes > 0
    ensures Fits(stride, bytes) <==>
      forall mb: nat | bytes <= mb * MIB ::
        Estimate(mb * MIB, stride, Dense(bytes)) == TouchedLines(mb * MIB, stride, Dense(bytes))
  {
    forall mb: nat | bytes <= mb * MIB && Fits(stride, bytes)
      ensures Estimate(mb * MIB, stride, Dense(bytes)) == TouchedLines(mb * MIB, stride, Dense(bytes))
    {
      DenseVerdict(mb * MIB, stride, bytes);
    }
    if !Fits(stride, bytes) {
      var mb := LargeEnough(stride, bytes);
      DenseVerdict(mb * MIB, stride, bytes);
    }
  }

  /** Strides of whole lines: the steps fit as soon as they do not overlap. */
  lemma WholeLineStrides(lines: nat, bytes: nat)
    requires lines > 0 && bytes > 0
    ensures Fits(LINE * lines, bytes) <==> bytes <= LINE * lines
  {
    assert (LINE * lines) % 2 == 0 && LINE * lines / 2 == 32 * lines;
    WholeGranule(lines);
  }

  lemma WholeGranule(lines: nat)
    ensures Granule(LINE * lines) == LINE
  {
    assert CommonPower(2 * lines, 2) == 2 * CommonPower(lines, 1);
    assert CommonPower(4 * lines, 4) == 2 * CommonPower(2 * lines, 2);
    assert CommonPower(8 * lines, 8) == 2 * CommonPower(4 * lines, 4);
    assert CommonPower(16 * lines, 16) == 2 * CommonPower(8 * lines, 8);
    assert CommonPower(32 * lines, 32) == 2 * CommonPower(16 * lines, 16);
    assert CommonPower(64 * lines, 64) == 2 * CommonPower(32 * lines, 32);
  }
}
