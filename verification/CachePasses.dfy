/** The cache-line lab's access loops, with a record of the bytes they touch. */
module CachePasses {
  import opened Bits
  import opened CacheLines
  import opened Folds
  import opened PassSums
  import opened Word64

  /** `rotl8` */
  function Rotl8(x: byte, r: nat): byte {
    ByteBits();
    RotationIs(x, r % 8, 8);
    Rotation(x, r % 8, 8)
  }

  lemma ByteBits()
    ensures Pow2(8) == 256
  {
  }

  /** Rotating on to a full turn brings every byte back: no bit is lost. */
  lemma RotatesBack(x: byte, r: nat)
    requires r <= 8
    ensures Rotl8(Rotl8(x, r), 8 - r) == x
  {
    var y := Rotl8(x, r);
    ByteBits();
    RotlIs(x, r);
    RotlIs(y, 8 - r);
    TurnBack(r);
    RotationBack(x, r % 8, 8);
    assert Rotation(y, RestOfTurn(r % 8, 8), 8) == x;
  }

  /** The low bits move up by `r % 8` places and the others come down. */
  lemma RotlMovesBits(x: byte, r: nat)
    ensures r % 8 == 0 ==> Rotl8(x, r) == x
    ensures r % 8 > 0 ==> Rotl8(x, r) == (x % Pow2(8 - r % 8)) * Pow2(r % 8) + x / Pow2(8 - r % 8)
  {
    var s := r % 8;
    ByteBits();
    RotlIs(x, r);
    RotationIs(x, s, 8);
    if s > 0 {
      RotatedParts(x, s, 8);
      LowIs(x, 8 - s);
      HalvedIs(x, 8 - s);
      ShiftedIs(Low(x, 8 - s), s);
    }
  }

  lemma RotlIs(x: byte, r: nat)
    ensures Rotl8(x, r) == Rotation(x, r % 8, 8)
  {
  }

  lemma TurnBack(r: nat)
    requires r <= 8
    ensures (8 - r) % 8 == RestOfTurn(r % 8, 8)
  {
  }

  lemma AccessedNext(n: nat, stride: nat, width: nat)
    ensures forall b: nat :: Accessed(n + 1, stride, width, b) <==>
      Accessed(n, stride, width, b) || Start(n, stride) <= b < Start(n, stride) + width
  {
    forall b: nat
      ensures Accessed(n + 1, stride, width, b) <==>
        Accessed(n, stride, width, b) || Start(n, stride) <= b < Start(n, stride) + width
    {
      if Accessed(n + 1, stride, width, b) {
        var k: nat :| k < n + 1 && Start(k, stride) <= b < Start(k, stride) + width;
      }
    }
  }

  method ReadWindow(buf: array<byte>, i: nat, width: nat, before: word, ghost base: nat) returns (sum: word)
    requires i + width <= buf.Length && before == Wrap(base)
    ensures sum == Wrap(base + WindowSum(buf[..], i, width))
  {
    sum := before;
    var k := 0;
    while k < width
      invariant k <= width && sum == Wrap(base + WindowSum(buf[..], i, k))
    {
      ResidueAdd(base + WindowSum(buf[..], i, k), buf[i + k], TWO64);
      sum := Wrap(sum + buf[i + k]);
      k := k + 1;
    }
  }

  /** A byte after a write to the window at `i`. */
  function WindowByte(x: byte, b: nat, i: nat, width: nat, r: nat): byte {
    if i <= b < i + width then (x + (b - i + r)) % 256 else x
  }

  method WriteWindow(buf: array<byte>, i: nat, width: nat, r: nat)
    requires i + width <= buf.Length
    modifies buf
    ensures forall b :: 0 <= b < buf.Length ==> buf[b] == WindowByte(old(buf[b]), b, i, width, r)
  {
    var k := 0;
    while k < width
      invariant k <= width
      invariant forall b :: 0 <= b < buf.Length ==> buf[b] == WindowByte(old(buf[b]), b, i, k, r)
    {
      buf[i + k] := (buf[i + k] + (k + r) % 256) % 256;
      k := k + 1;
    }
  }

  lemma StepsReached(size: nat, stride: nat, mode: Mode, k: nat)
    requires stride > 0 && Accepted(size, mode) && Start(k, stride) >= MaxIndex(size, mode)
    requires k > 0 ==> Start(k - 1, stride) < MaxIndex(size, mode)
    ensures k == Steps(size, stride, mode)
  {
    StepsFit(size, stride, mode, k);
    if k > 0 { StepsFit(size, stride, mode, k - 1); }
  }

  /** What `k` steps of a pass that began with contents `was` have done to the buffer and the sum. */
  ghost predicate Done(was: seq<byte>, now: seq<byte>, k: nat, stride: nat, mode: Mode, write: bool, r: nat,
    base: nat, sum: word)
  {
    if write then
      && sum == Wrap(base)
      && if mode.Sparse? then SparseDone(was, now, k, stride, r) else DenseDone(was, now, k, stride, mode.bytes, r)
    else
      && now == was && (k > 0 ==> Start(k - 1, stride) + Width(mode) <= |was|)
      && sum == Wrap(base + Gathered(was, k, stride, Width(mode)))
  }

  ghost predicate SparseDone(was: seq<byte>, now: seq<byte>, k: nat, stride: nat, r: nat) {
    |now| == |was| && forall b :: 0 <= b < |was| ==> now[b] == SparseByte(was[b], b, k, stride, r)
  }

  ghost predicate DenseDone(was: seq<byte>, now: seq<byte>, k: nat, stride: nat, bytes: nat, r: nat) {
    |now| == |was| && forall b :: 0 <= b < |was| ==> now[b] == DenseByte(was[b], b, k, stride, bytes, r)
  }

  /** `(uint8_t)(x + (uint8_t)r)` */
  function Bumped(x: byte, r: nat): byte { (x + r % 256) % 256 }

  /** A sparse write pass replaces each byte it visits, once. */
  ghost function SparseByte(x: byte, b: nat, k: nat, stride: nat, r: nat): byte {
    if Accessed(k, stride, 1, b) then Rotl8(Bumped(x, r), b) else x
  }

  /** A dense write pass adds to a byte for every window over it. */
  ghost function DenseByte(x: byte, b: nat, k: nat, stride: nat, bytes: nat, r: nat): byte {
    (x + Added(b, k, stride, bytes, r)) % 256
  }

  lemma {:induction false} NotYetAccessed(k: nat, stride: nat, b: nat)
    requires stride > 0 && b >= Start(k, stride)
    ensures !Accessed(k, stride, 1, b)
  {
    if k > 0 {
      NotYetAccessed(k - 1, stride, b);
      AccessedNext(k - 1, stride, 1);
    }
  }

  lemma SparseByteNext(x: byte, b: nat, k: nat, stride: nat, r: nat)
    requires stride > 0
    ensures SparseByte(x, b, k + 1, stride, r)
         == if b == Start(k, stride) then Rotl8(Bumped(x, r), b) else SparseByte(x, b, k, stride, r)
    ensures b == Start(k, stride) ==> SparseByte(x, b, k, stride, r) == x
  {
    AccessedNext(k, stride, 1);
    if b == Start(k, stride) { NotYetAccessed(k, stride, b); }
  }

  lemma DenseByteNext(x: byte, b: nat, k: nat, stride: nat, bytes: nat, r: nat, now: byte, next: byte)
    requires now == DenseByte(x, b, k, stride, bytes, r)
    requires next == WindowByte(now, b, Start(k, stride), bytes, r)
    ensures next == DenseByte(x, b, k + 1, stride, bytes, r)
  {
    if Start(k, stride) <= b < Start(k, stride) + bytes {
      AddBytes(x + Added(b, k, stride, bytes, r), b - Start(k, stride) + r);
    }
  }

  lemma AddBytes(a: nat, b: nat)
    ensures (a % 256 + b) % 256 == (a + b) % 256
  {
  }

  lemma SparseWritten(was: seq<byte>, now: seq<byte>, next: seq<byte>, k: nat, stride: nat, r: nat)
    requires stride > 0 && SparseDone(was, now, k, stride, r) && Start(k, stride) < |was|
    requires next == now[Start(k, stride) := SparseByte(was[Start(k, stride)], Start(k, stride), k + 1, stride, r)]
    ensures SparseDone(was, next, k + 1, stride, r)
  {
    forall b | 0 <= b < |was| ensures next[b] == SparseByte(was[b], b, k + 1, stride, r) {
      SparseByteNext(was[b], b, k, stride, r);
    }
  }

  /** The byte a sparse step writes is the one its place is to hold. */
  lemma NewByte(was: seq<byte>, now: seq<byte>, k: nat, i: nat, stride: nat, r: nat)
    requires stride > 0 && SparseDone(was, now, k, stride, r) && i == Start(k, stride) < |was|
    ensures Rotl8(Bumped(now[i], r), i) == SparseByte(was[i], i, k + 1, stride, r)
  {
    SparseByteNext(was[i], i, k, stride, r);
  }

  lemma SparseStepRead(was: seq<byte>, k: nat, stride: nat, r: nat, base: nat, sum: word)
    requires Done(was, was, k, stride, Sparse, false, r, base, sum) && Start(k, stride) < |was|
    ensures Done(was, was, k + 1, stride, Sparse, false, r, base, Wrap(sum + was[Start(k, stride)]))
  {
    var i := Start(k, stride);
    assert WindowSum(was, i, 1) == WindowSum(was, i, 0) + was[i];
    ResidueAdd(base + Gathered(was, k, stride, 1), was[i], TWO64);
  }

  lemma DenseStepRead(was: seq<byte>, k: nat, stride: nat, bytes: nat, r: nat, base: nat, sum: word, i: nat)
    requires i == Start(k, stride) && i + bytes <= |was|
    requires Done(was, was, k, stride, Dense(bytes), false, r, base, sum)
    ensures Done(was, was, k + 1, stride, Dense(bytes), false, r, base,
      Wrap(base + Gathered(was, k, stride, bytes) + WindowSum(was, i, bytes)))
  {
  }

  lemma DenseWritten(was: seq<byte>, now: seq<byte>, next: seq<byte>, k: nat, stride: nat, bytes: nat, r: nat)
    requires DenseDone(was, now, k, stride, bytes, r) && |next| == |was|
    requires forall b :: 0 <= b < |was| ==> next[b] == WindowByte(now[b], b, Start(k, stride), bytes, r)
    ensures DenseDone(was, next, k + 1, stride, bytes, r)
  {
    forall b | 0 <= b < |was| ensures next[b] == DenseByte(was[b], b, k + 1, stride, bytes, r) {
      DenseByteNext(was[b], b, k, stride, bytes, r, now[b], next[b]);
    }
  }

  /** A sparse pass visits the multiples of the stride. */
  lemma SparseVisits(size: nat, stride: nat, b: nat)
    requires stride > 0
    ensures Accessed(Steps(size, stride, Sparse), stride, 1, b) <==> b < size && b % stride == 0
  {
    var n := Steps(size, stride, Sparse);
    if Accessed(n, stride, 1, b) {
      var k: nat :| k < n && Start(k, stride) <= b < Start(k, stride) + 1;
      StepsFit(size, stride, Sparse, k);
      StartIs(k, stride);
      ModUnique(b, stride, k, 0);
    }
    if b < size && b % stride == 0 {
      var k := b / stride;
      StartIs(k, stride);
      assert k * stride == b;
      StepsFit(size, stride, Sparse, k);
    }
  }

  /** What a sparse read pass adds: each byte at a multiple of the stride. */
  function AtMultiples(data: seq<byte>, stride: nat): nat -> nat
    requires stride > 0
  {
    (b: nat) => if b < |data| && b % stride == 0 then data[b] else 0
  }

  lemma AtMostOneStep(b: nat, n: nat, stride: nat)
    requires stride > 0
    ensures SumTo(n, Over(b, stride, 1)) == if Accessed(n, stride, 1, b) then 1 else 0
  {
    var f := Over(b, stride, 1);
    if Accessed(n, stride, 1, b) {
      var k: nat :| k < n && Start(k, stride) <= b < Start(k, stride) + 1;
      forall i: nat | i < n && i != k ensures f(i) == 0 { StartsDiffer(i, k, stride); }
      SumToOne(n, k, f);
    } else {
      SumToZero(n, f);
    }
  }

  lemma StartsDiffer(i: nat, k: nat, stride: nat)
    requires stride > 0 && i != k
    ensures Start(i, stride) != Start(k, stride)
  {
    StartIs(i, stride);
    StartIs(k, stride);
    MulOrder(stride, k - i);
    assert stride * (k - i) == k * stride - i * stride;
  }

  lemma SparseGathers(data: seq<byte>, stride: nat)
    requires stride > 0
    ensures SumTo(|data|, Covered(data, Steps(|data|, stride, Sparse), stride, 1)) == SumTo(|data|, AtMultiples(data, stride))
  {
    var n := Steps(|data|, stride, Sparse);
    var f, g := Covered(data, n, stride, 1), AtMultiples(data, stride);
    forall b: nat | b < |data| ensures f(b) == g(b) {
      SparseVisits(|data|, stride, b);
      AtMostOneStep(b, n, stride);
    }
    SumToSame(|data|, f, g);
  }

  /** Each multiple of the stride is rewritten, once; the rotation uses the low three bits of the place. */
  ghost predicate SparseWrote(was: seq<byte>, now: seq<byte>, stride: nat, r: nat)
    requires stride > 0
  {
    && |now| == |was|
    && forall b: nat :: b < |was| ==>
      now[b] == if b % stride == 0 then Rotl8((was[b] + r % 256) % 256, b) else was[b]
  }

  ghost predicate SparseRead(was: seq<byte>, now: seq<byte>, stride: nat, base: nat, sum: word)
    requires stride > 0
  {
    now == was && sum == Wrap(base + SumTo(|was|, AtMultiples(was, stride)))
  }

  lemma SparseOutcome(was: seq<byte>, now: seq<byte>, stride: nat, write: bool, r: nat, base: nat, sum: word)
    requires stride > 0 && Done(was, now, Steps(|was|, stride, Sparse), stride, Sparse, write, r, base, sum)
    ensures if write then SparseWrote(was, now, stride, r) else SparseRead(was, now, stride, base, sum)
  {
    if write {
      forall b: nat | b < |was|
        ensures now[b] == if b % stride == 0 then Rotl8((was[b] + r % 256) % 256, b) else was[b]
      {
        SparseVisits(|was|, stride, b);
      }
    } else {
      GatheredIsTotal(was, Steps(|was|, stride, Sparse), stride, 1);
      SparseGathers(was, stride);
    }
  }

  /** The sparse loop of one repetition. */
  method SparsePass(buf: array<byte>, stride: nat, write: bool, r: nat, before: word, ghost base: nat)
    returns (sum: word, ghost touched: set<nat>)
    requires stride > 0 && before == Wrap(base)
    modifies buf
    ensures forall b: nat :: b in touched <==> Accessed(Steps(buf.Length, stride, Sparse), stride, 1, b)
    ensures Done(old(buf[..]), buf[..], Steps(buf.Length, stride, Sparse), stride, Sparse, write, r, base, sum)
    ensures write ==> sum == before && SparseWrote(old(buf[..]), buf[..], stride, r)
    ensures !write ==> SparseRead(old(buf[..]), buf[..], stride, base, sum)
  {
    sum, touched := before, {};
    var i := 0;
    ghost var k, was := 0, buf[..];
    while i < buf.Length
      invariant i == Start(k, stride)
      invariant k > 0 ==> Start(k - 1, stride) < buf.Length
      invariant forall b: nat :: b in touched <==> Accessed(k, stride, 1, b)
      invariant Done(was, buf[..], k, stride, Sparse, write, r, base, sum)
      decreases buf.Length - i
    {
      AccessedNext(k, stride, 1);
      if write {
        ghost var now := buf[..];
        NewByte(was, now, k, i, stride, r);
        buf[i] := Rotl8(Bumped(buf[i], r), i);
        SparseWritten(was, now, buf[..], k, stride, r);
      } else {
        SparseStepRead(was, k, stride, r, base, sum);
        sum := Wrap(sum + buf[i]);
      }
      touched := touched + {i};
      i, k := i + stride, k + 1;
    }
    StepsReached(buf.Length, stride, Sparse, k);
    SparseOutcome(was, buf[..], stride, write, r, base, sum);
  }

  /** Every byte is raised by the sum over the windows that lie over it. */
  ghost predicate DenseWrote(was: seq<byte>, now: seq<byte>, stride: nat, bytes: nat, r: nat)
    requires stride > 0 && 0 < bytes <= |was|
  {
    && |now| == |was|
    && forall b: nat :: b < |was| ==>
      now[b] == (was[b] + Added(b, Steps(|was|, stride, Dense(bytes)), stride, bytes, r)) % 256
  }

  /** Every byte is added once for each window over it. */
  ghost predicate DenseRead(was: seq<byte>, now: seq<byte>, stride: nat, bytes: nat, base: nat, sum: word)
    requires stride > 0 && 0 < bytes <= |was|
  {
    && now == was
    && sum == Wrap(base + SumTo(|was|, Covered(was, Steps(|was|, stride, Dense(bytes)), stride, bytes)))
  }

  lemma DenseOutcome(was: seq<byte>, now: seq<byte>, stride: nat, bytes: nat, write: bool, r: nat, base: nat, sum: word)
    requires stride > 0 && 0 < bytes <= |was|
    requires Done(was, now, Steps(|was|, stride, Dense(bytes)), stride, Dense(bytes), write, r, base, sum)
    ensures if write then DenseWrote(was, now, stride, bytes, r) else DenseRead(was, now, stride, bytes, base, sum)
  {
    if !write { GatheredIsTotal(was, Steps(|was|, stride, Dense(bytes)), stride, bytes); }
  }

  /** The dense loop of one repetition. */
  method DensePass(buf: array<byte>, stride: nat, bytes: nat, write: bool, r: nat, before: word, ghost base: nat)
    returns (sum: word, ghost touched: set<nat>)
    requires stride > 0 && before == Wrap(base) && 0 < bytes <= buf.Length
    modifies buf
    ensures forall b: nat :: b in touched <==> Accessed(Steps(buf.Length, stride, Dense(bytes)), stride, bytes, b)
    ensures Done(old(buf[..]), buf[..], Steps(buf.Length, stride, Dense(bytes)), stride, Dense(bytes),
      write, r, base, sum)
    ensures write ==> sum == before && DenseWrote(old(buf[..]), buf[..], stride, bytes, r)
    ensures !write ==> DenseRead(old(buf[..]), buf[..], stride, bytes, base, sum)
  {
    sum, touched := before, {};
    var maxIndex := buf.Length - bytes + 1;
    var i := 0;
    ghost var k, was := 0, buf[..];
    while i < maxIndex
      invariant i == Start(k, stride)
      invariant k > 0 ==> Start(k - 1, stride) < maxIndex
      invariant forall b: nat :: b in touched <==> Accessed(k, stride, bytes, b)
      invariant Done(was, buf[..], k, stride, Dense(bytes), write, r, base, sum)
      decreases maxIndex - i
    {
      AccessedNext(k, stride, bytes);
      ghost var now := buf[..];
      if write {
        WriteWindow(buf, i, bytes, r);
        DenseWritten(was, now, buf[..], k, stride, bytes, r);
      } else {
        DenseStepRead(was, k, stride, bytes, r, base, sum, i);
        sum := ReadWindow(buf, i, bytes, sum, base + Gathered(was, k, stride, bytes));
      }
      RangeIs(i, i + bytes - 1);
      touched := touched + Range(i, i + bytes - 1);
      i, k := i + stride, k + 1;
    }
    StepsReached(buf.Length, stride, Dense(bytes), k);
    DenseOutcome(was, buf[..], stride, bytes, write, r, base, sum);
  }

  /** One repetition in either mode. Where the lemmas say so, the lines of the bytes touched are the estimate. */
  method Repetition(buf: array<byte>, stride: nat, mode: Mode, write: bool, r: nat, before: word)
    returns (sum: word, ghost touched: set<nat>)
    requires stride > 0 && Accepted(buf.Length, mode)
    modifies buf
    ensures forall b :: b in touched ==> b < buf.Length
    ensures Done(old(buf[..]), buf[..], Steps(buf.Length, stride, mode), stride, mode, write, r, before, sum)
    ensures mode.Sparse? ==> if write
      then sum == before && SparseWrote(old(buf[..]), buf[..], stride, r)
      else SparseRead(old(buf[..]), buf[..], stride, before, sum)
    ensures mode.Dense? ==> if write
      then sum == before && DenseWrote(old(buf[..]), buf[..], stride, mode.bytes, r)
      else DenseRead(old(buf[..]), buf[..], stride, mode.bytes, before, sum)
    ensures |LinesOf(touched)| == TouchedLines(buf.Length, stride, mode)
    ensures buf.Length > 0 && buf.Length % LINE == 0
      && (mode.Sparse? || stride < LINE || Fits(stride, mode.bytes))
      ==> |LinesOf(touched)| == Estimate(buf.Length, stride, mode)
  {
    WrapOfWord(before);
    match mode {
      case Sparse =>
        sum, touched := SparsePass(buf, stride, write, r, before, before);
      case Dense(bytes) =>
        sum, touched := DensePass(buf, stride, bytes, write, r, before, before);
    }
    LinesAreTouched(Steps(buf.Length, stride, mode), stride, Width(mode), touched);
    TouchedInside(buf.Length, stride, mode, touched);
    if buf.Length > 0 && buf.Length % LINE == 0 {
      if mode.Sparse? {
        SparseExact(buf.Length, stride);
      } else if stride < LINE {
        ShortStrideExact(buf.Length, stride, mode);
      } else {
        DenseVerdict(buf.Length, stride, mode.bytes);
      }
    }
  }

  lemma WrapOfWord(w: word)
    ensures Wrap(w) == w
  {
  }

  lemma TouchedInside(size: nat, stride: nat, mode: Mode, touched: set<nat>)
    requires stride > 0 && Accepted(size, mode)
    requires forall b: nat :: b in touched <==> Accessed(Steps(size, stride, mode), stride, Width(mode), b)
    ensures forall b :: b in touched ==> b < size
  {
    forall b | b in touched ensures b < size {
      var k: nat :| k < Steps(size, stride, mode) && Start(k, stride) <= b < Start(k, stride) + Width(mode);
      StepsFit(size, stride, mode, k);
    }
  }

  /** `do_warmup`: one byte of every line of the warm-up buffer, whatever its size. */
  method Warmup(warm: array<byte>, before: word) returns (sum: word, ghost touched: set<nat>)
    ensures SparseRead(warm[..], warm[..], LINE, before, sum)
    ensures forall l: nat :: l in LinesOf(touched) <==> l * LINE < warm.Length
    ensures |LinesOf(touched)| == |touched|
  {
    sum, touched := before, {};
    WrapOfWord(before);
    var i := 0;
    while i < warm.Length
      invariant i % LINE == 0
      invariant sum == Wrap(before + LineHeads(warm[..], if i < warm.Length then i else warm.Length))
      invariant forall b :: b in touched <==> 0 <= b < i && b % LINE == 0
      invariant i > 0 ==> i - LINE < warm.Length
      invariant |touched| == i / LINE
      decreases warm.Length - i
    {
      NextHead(warm[..], i);
      ResidueAdd(before + LineHeads(warm[..], i), warm[i], TWO64);
      sum := Wrap(sum + warm[i]);
      touched := touched + {i};
      i := i + LINE;
    }
    WarmOutcome(warm[..], before, sum);
    WarmLines(warm.Length, i, touched);
  }

  /** The first bytes of the lines below `n`, added up. */
  function LineHeads(data: seq<byte>, n: nat): nat
    requires n <= |data|
  {
    if n == 0 then 0 else LineHeads(data, n - 1) + (if (n - 1) % LINE == 0 then data[n - 1] else 0)
  }

  lemma {:induction false} LineHeadsAre(data: seq<byte>, n: nat)
    requires n <= |data|
    ensures LineHeads(data, n) == SumTo(n, AtMultiples(data, LINE))
  {
    if n > 0 {
      LineHeadsAre(data, n - 1);
      assert AtMultiples(data, LINE)(n - 1) == if (n - 1) % LINE == 0 then data[n - 1] else 0;
    }
  }

  lemma WarmOutcome(data: seq<byte>, base: nat, sum: word)
    requires sum == Wrap(base + LineHeads(data, |data|))
    ensures SparseRead(data, data, LINE, base, sum)
  {
    LineHeadsAre(data, |data|);
  }

  lemma NextHead(data: seq<byte>, i: nat)
    requires i < |data| && i % LINE == 0
    ensures LineHeads(data, if i + LINE < |data| then i + LINE else |data|) == LineHeads(data, i) + data[i]
  {
    NoHeads(data, i + 1, if i + LINE < |data| then i + LINE else |data|);
  }

  lemma {:induction false} NoHeads(data: seq<byte>, m: nat, n: nat)
    requires m <= n <= |data| && 0 < m % LINE && n - m < LINE - m % LINE + 1
    ensures LineHeads(data, n) == LineHeads(data, m)
  {
    if m < n { NoHeads(data, m, n - 1); }
  }

  lemma WarmLines(size: nat, end: nat, touched: set<nat>)
    requires end % LINE == 0 && size <= end && (end > 0 ==> end - LINE < size)
    requires forall b :: b in touched <==> 0 <= b < end && b % LINE == 0
    requires |touched| == end / LINE
    ensures forall l: nat :: l in LinesOf(touched) <==> l * LINE < size
    ensures |LinesOf(touched)| == |touched|
  {
    forall l: nat ensures l in LinesOf(touched) <==> l * LINE < size {
      if l * LINE < size {
        assert l * LINE in touched && (l * LINE) / LINE == l;
      }
      if l in LinesOf(touched) {
        var b :| b in touched && b / LINE == l;
      }
    }
    if end == 0 {
      assert LinesOf(touched) == {};
    } else {
      RangeIs(0, end / LINE - 1);
      RangeSize(0, end / LINE - 1);
      assert LinesOf(touched) == Range(0, end / LINE - 1);
    }
  }
}
