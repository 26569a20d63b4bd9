/** What a pass over the cache-line lab's buffer adds up, step by step and byte by byte. */
module PassSums {
  import opened CacheLines
  import opened Folds
  import opened Word64

  function WindowSum(data: seq<byte>, i: nat, width: nat): nat
    requires i + width <= |data|
  {
    if width == 0 then 0 else WindowSum(data, i, width - 1) + data[i + width - 1]
  }

  /** What a read pass of `n` steps adds up. */
  function Gathered(data: seq<byte>, n: nat, stride: nat, width: nat): nat
    requires n > 0 ==> Start(n - 1, stride) + width <= |data|
  {
    if n == 0 then 0
    else Gathered(data, n - 1, stride, width) + WindowSum(data, Start(n - 1, stride), width)
  }

  /** What a dense write pass of `n` steps adds to byte `b`: its place in each window over it, plus `r`. */
  function Added(b: nat, n: nat, stride: nat, width: nat, r: nat): nat {
    if n == 0 then 0
    else Added(b, n - 1, stride, width, r) + Gain(b, Start(n - 1, stride), width, r)
  }

  function Gain(b: nat, i: nat, width: nat, r: nat): nat {
    if i <= b < i + width then b - i + r else 0
  }

  // ---------- The same, summed over all bytes and all steps ----------

  /** Whether step `k` reads byte `b`, as a number. */
  function Over(b: nat, stride: nat, width: nat): nat -> nat {
    (k: nat) => if Start(k, stride) <= b < Start(k, stride) + width then 1 else 0
  }

  /** Byte `b`, once for each of the first `n` steps whose window lies over it. */
  function Covered(data: seq<byte>, n: nat, stride: nat, width: nat): nat -> nat {
    (b: nat) => if b < |data| then data[b] * SumTo(n, Over(b, stride, width)) else 0
  }

  lemma {:induction false} AddedIsSum(b: nat, n: nat, stride: nat, width: nat, r: nat, f: nat -> nat)
    requires forall k: nat {:trigger f(k)} :: k < n ==> f(k) == Gain(b, Start(k, stride), width, r)
    ensures Added(b, n, stride, width, r) == SumTo(n, f)
  {
    if n > 0 {
      AddedIsSum(b, n - 1, stride, width, r, f);
      assert f(n - 1) == Gain(b, Start(n - 1, stride), width, r);
    }
  }

  /** Every window over a byte adds the byte's place in it, and the repetition. */
  lemma AddedIsTotal(b: nat, n: nat, stride: nat, width: nat, r: nat)
    ensures Added(b, n, stride, width, r)
         == SumTo(n, (k: nat) => if Start(k, stride) <= b < Start(k, stride) + width then b - Start(k, stride) + r else 0)
  {
    AddedIsSum(b, n, stride, width, r,
      (k: nat) => if Start(k, stride) <= b < Start(k, stride) + width then b - Start(k, stride) + r else 0);
  }

  ghost function StepsOver(b: nat, n: nat, stride: nat, width: nat): set<nat> {
    set k: nat | k < n && Start(k, stride) <= b < Start(k, stride) + width
  }

  lemma OverCounts(b: nat, n: nat, stride: nat, width: nat)
    ensures SumTo(n, Over(b, stride, width)) == |StepsOver(b, n, stride, width)|
  {
    var f := Over(b, stride, width);
    SumToCounts(n, f);
    forall k: nat ensures f(k) <= 1 && (f(k) == 1 <==> Start(k, stride) <= b < Start(k, stride) + width) {}
    assert Ones(n, f) == StepsOver(b, n, stride, width);
  }

  function Windowed(data: seq<byte>, i: nat, width: nat): nat -> nat {
    (b: nat) => if b < |data| && i <= b < i + width then data[b] else 0
  }

  lemma {:induction false} WindowSumIs(data: seq<byte>, i: nat, width: nat)
    requires i + width <= |data|
    ensures WindowSum(data, i, width) == SumTo(|data|, Windowed(data, i, width))
  {
    if width == 0 {
      SumToZero(|data|, Windowed(data, i, width));
    } else {
      var last := i + width - 1;
      var one := (b: nat) => if b == last then data[last] else 0;
      WindowSumIs(data, i, width - 1);
      SumToOne(|data|, last, one);
      SumToPlus(|data|, Windowed(data, i, width - 1), one, Windowed(data, i, width));
    }
  }

  lemma OneMoreTime(x: nat, c: nat)
    ensures x * (c + 1) == x * c + x
  {
  }

  lemma CoveredNext(data: seq<byte>, n: nat, stride: nat, width: nat, b: nat)
    requires n > 0
    ensures Covered(data, n, stride, width)(b)
         == Covered(data, n - 1, stride, width)(b) + Windowed(data, Start(n - 1, stride), width)(b)
  {
    var f := Over(b, stride, width);
    if b < |data| {
      assert f(n - 1) == if Start(n - 1, stride) <= b < Start(n - 1, stride) + width then 1 else 0;
      OneMoreTime(data[b], SumTo(n - 1, f));
    }
  }

  lemma NothingCovered(data: seq<byte>, stride: nat, width: nat)
    ensures SumTo(|data|, Covered(data, 0, stride, width)) == 0
  {
    SumToZero(|data|, Covered(data, 0, stride, width));
  }

  lemma TotalNext(data: seq<byte>, n: nat, stride: nat, width: nat)
    requires n > 0
    ensures SumTo(|data|, Covered(data, n, stride, width))
         == SumTo(|data|, Covered(data, n - 1, stride, width)) + SumTo(|data|, Windowed(data, Start(n - 1, stride), width))
  {
    var f, g, h := Covered(data, n - 1, stride, width), Windowed(data, Start(n - 1, stride), width),
      Covered(data, n, stride, width);
    forall b: nat | b < |data| ensures h(b) == f(b) + g(b) { CoveredNext(data, n, stride, width, b); }
    SumToPlus(|data|, f, g, h);
  }

  /** A read pass adds every byte as often as there are windows over it. */
  lemma {:induction false} GatheredIsTotal(data: seq<byte>, n: nat, stride: nat, width: nat)
    requires n > 0 ==> Start(n - 1, stride) + width <= |data|
    ensures Gathered(data, n, stride, width) == SumTo(|data|, Covered(data, n, stride, width))
  {
    if n == 0 {
      NothingCovered(data, stride, width);
    } else {
      GatheredIsTotal(data, n - 1, stride, width);
      TotalNext(data, n, stride, width);
      WindowSumIs(data, Start(n - 1, stride), width);
    }
  }

  lemma CoveredRaised(data: seq<byte>, raised: seq<byte>, b: nat, d: nat, n: nat, stride: nat, width: nat,
      f: nat -> nat, g: nat -> nat, c: nat)
    requires b < |data| && data[b] + d < 256 && raised == data[b := data[b] + d]
    requires f == Covered(data, n, stride, width) && g == Covered(raised, n, stride, width)
    requires c == SumTo(n, Over(b, stride, width))
    ensures SumTo(|data|, g) == SumTo(|data|, f) + d * c
  {
    RaisedTerm(data, raised, b, d, n, stride, width, f, g);
    OtherTerms(data, raised, b, n, stride, width, f, g);
    SumToRaised(|data|, b, d * c, f, g);
  }

  lemma OtherTerms(data: seq<byte>, raised: seq<byte>, b: nat, n: nat, stride: nat, width: nat, f: nat -> nat, g: nat -> nat)
    requires b < |data| == |raised| && raised == data[b := raised[b]]
    requires f == Covered(data, n, stride, width) && g == Covered(raised, n, stride, width)
    ensures forall i: nat :: i < |data| && i != b ==> g(i) == f(i)
  {
    forall i: nat | i < |data| && i != b ensures g(i) == f(i) {
      RaisedTerm(data, raised, i, 0, n, stride, width, f, g);
    }
  }

  lemma RaisedTerm(data: seq<byte>, raised: seq<byte>, i: nat, d: nat, n: nat, stride: nat, width: nat,
      f: nat -> nat, g: nat -> nat)
    requires |raised| == |data| && i < |data| && raised[i] == data[i] + d
    requires f == Covered(data, n, stride, width) && g == Covered(raised, n, stride, width)
    ensures g(i) == f(i) + d * SumTo(n, Over(i, stride, width)) && (d == 0 ==> g(i) == f(i))
  {
    Distribute(data[i], d, SumTo(n, Over(i, stride, width)));
  }

  lemma Distribute(x: nat, d: nat, c: nat)
    ensures (x + d) * c == x * c + d * c
  {
  }

  /** Raising one byte raises what a read pass adds by that much for each step whose window lies over the byte. */
  lemma RaisedByte(data: seq<byte>, b: nat, d: nat, n: nat, stride: nat, width: nat)
    requires n > 0 ==> Start(n - 1, stride) + width <= |data|
    requires b < |data| && data[b] + d < 256
    ensures Gathered(data[b := data[b] + d], n, stride, width)
         == Gathered(data, n, stride, width)
          + d * |StepsOver(b, n, stride, width)|
  {
    GatheredIsTotal(data, n, stride, width);
    GatheredIsTotal(data[b := data[b] + d], n, stride, width);
    var raised := data[b := data[b] + d];
    CoveredRaised(data, raised, b, d, n, stride, width, Covered(data, n, stride, width),
      Covered(raised, n, stride, width), SumTo(n, Over(b, stride, width)));
    OverCounts(b, n, stride, width);
  }
}
