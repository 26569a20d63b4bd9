/** The mmap-versus-read lab: sampling a file one buffer at a time, or in one sweep of a mapping. */
module ChunkedScan {
  import opened Folds
  import opened Strides
  import opened Word64

  /** What a scan adds up, before it is stored in 64-bit counters. */
  datatype Tally = Tally(samples: nat, sum: nat) {
    function Plus(other: Tally): Tally {
      Tally(samples + other.samples, sum + other.sum)
    }
  }

  datatype Report = Report(samples: word, checksum: word)

  function Reported(t: Tally): Report {
    Report(Wrap(t.samples), Wrap(t.sum))
  }

  /** One byte every `stride`, from offset `off`. */
  function Sampled(data: seq<byte>, off: nat, stride: nat): Tally
    requires stride > 0
    decreases |data| - off
  {
    if off >= |data| then Tally(0, 0)
    else
      var later := Sampled(data, off + stride, stride);
      Tally(1 + later.samples, data[off] + later.sum)
  }

  /** The mapping is sampled as a whole. */
  function FlatScan(data: seq<byte>, stride: nat): Tally
    requires stride > 0
  {
    Sampled(data, 0, stride)
  }

  function Length(pieces: seq<nat>): nat {
    if pieces == [] then 0 else pieces[0] + Length(pieces[1..])
  }

  /** The file as `read` may hand it over: non-empty pieces that add up to the file. */
  predicate Splits(pieces: seq<nat>, n: nat) {
    Length(pieces) == n && forall i :: 0 <= i < |pieces| ==> pieces[i] > 0
  }

  /** Every piece is sampled from its own start. */
  function ReadScan(data: seq<byte>, pieces: seq<nat>, stride: nat): Tally
    requires stride > 0 && Splits(pieces, |data|)
    decreases |pieces|
  {
    if pieces == [] then Tally(0, 0)
    else FlatScan(data[..pieces[0]], stride).Plus(ReadScan(data[pieces[0]..], pieces[1..], stride))
  }

  // ---------- The positions sampled ----------

  function At(data: seq<byte>): nat -> nat {
    (p: nat) => if p < |data| then data[p] else 0
  }

  function SamplesOf(stride: nat): nat -> nat
    requires stride > 0
  {
    (n: nat) => CeilDiv(n, stride)
  }

  function PositionsFrom(off: nat, n: nat, stride: nat): seq<nat>
    requires stride > 0
    decreases n - off
  {
    if off >= n then [] else [off] + PositionsFrom(off + stride, n, stride)
  }

  lemma {:induction false} SampledIs(data: seq<byte>, off: nat, stride: nat)
    requires stride > 0
    ensures Sampled(data, off, stride).samples == |PositionsFrom(off, |data|, stride)|
    ensures Sampled(data, off, stride).sum == Sum(PositionsFrom(off, |data|, stride), At(data))
    decreases |data| - off
  {
    if off < |data| {
      SampledIs(data, off + stride, stride);
      assert PositionsFrom(off, |data|, stride)[1..] == PositionsFrom(off + stride, |data|, stride);
    }
  }

  lemma {:induction false} PositionsFromAre(k: nat, n: nat, stride: nat)
    requires stride > 0 && k <= CeilDiv(n, stride)
    ensures PositionsFrom(k * stride, n, stride) == Positions(n, stride)[k..]
    decreases CeilDiv(n, stride) - k
  {
    CeilDivCounts(n, stride, k);
    if k < CeilDiv(n, stride) {
      PositionsFromAre(k + 1, n, stride);
      assert (k + 1) * stride == k * stride + stride;
      assert Positions(n, stride)[k..] == [Positions(n, stride)[k]] + Positions(n, stride)[k + 1..];
    }
  }

  /** A flat scan reads the multiples of the stride, each once. */
  lemma FlatScanIs(data: seq<byte>, stride: nat)
    requires stride > 0
    ensures FlatScan(data, stride).samples == CeilDiv(|data|, stride)
    ensures FlatScan(data, stride).sum == Sum(Positions(|data|, stride), At(data))
  {
    SampledIs(data, 0, stride);
    PositionsFromAre(0, |data|, stride);
    assert Positions(|data|, stride)[0..] == Positions(|data|, stride);
  }

  function Moved(s: seq<nat>, from: nat): (t: seq<nat>)
    ensures |t| == |s| && forall i :: 0 <= i < |s| ==> t[i] == from + s[i]
  {
    seq(|s|, i requires 0 <= i < |s| => from + s[i])
  }

  /** The places in the file that read mode samples, when the first piece starts at `from`. */
  function PiecePositions(pieces: seq<nat>, stride: nat, from: nat): seq<nat>
    requires stride > 0
  {
    if pieces == [] then []
    else Moved(Positions(pieces[0], stride), from) + PiecePositions(pieces[1..], stride, from + pieces[0])
  }

  lemma FirstPieceIs(file: seq<byte>, from: nat, n: nat, stride: nat)
    requires stride > 0 && from + n <= |file|
    ensures FlatScan(file[from..from + n], stride).samples == CeilDiv(n, stride)
    ensures FlatScan(file[from..from + n], stride).sum == Sum(Moved(Positions(n, stride), from), At(file))
  {
    var piece, s := file[from..from + n], Positions(n, stride);
    FlatScanIs(piece, stride);
    forall i | 0 <= i < |s| ensures At(piece)(s[i]) == At(file)(Moved(s, from)[i]) { CeilDivCounts(n, stride, i); }
    SumAlike(s, Moved(s, from), At(piece), At(file));
  }

  lemma ReadScanStep(file: seq<byte>, from: nat, pieces: seq<nat>, stride: nat)
    requires stride > 0 && from <= |file| && Splits(pieces, |file[from..]|) && pieces != []
    ensures from + pieces[0] <= |file| && Splits(pieces[1..], |file[from + pieces[0]..]|)
    ensures ReadScan(file[from..], pieces, stride)
         == FlatScan(file[from..from + pieces[0]], stride).Plus(ReadScan(file[from + pieces[0]..], pieces[1..], stride))
  {
    SplitsRest(pieces, |file[from..]|);
    CutTwice(file, from, pieces[0]);
    Unfolded(file[from..], pieces, stride, file[from..from + pieces[0]], file[from + pieces[0]..]);
  }

  lemma CutTwice(file: seq<byte>, from: nat, n: nat)
    requires from + n <= |file|
    ensures file[from..][..n] == file[from..from + n] && file[from..][n..] == file[from + n..]
  {
  }

  lemma Unfolded(data: seq<byte>, pieces: seq<nat>, stride: nat, first: seq<byte>, rest: seq<byte>)
    requires stride > 0 && Splits(pieces, |data|) && pieces != [] && pieces[0] <= |data|
    requires first == data[..pieces[0]] && rest == data[pieces[0]..] && Splits(pieces[1..], |rest|)
    ensures ReadScan(data, pieces, stride) == FlatScan(first, stride).Plus(ReadScan(rest, pieces[1..], stride))
  {
  }

  lemma PiecePositionsStep(pieces: seq<nat>, stride: nat, from: nat, f: nat -> nat)
    requires stride > 0 && pieces != []
    ensures Sum(PiecePositions(pieces, stride, from), f)
         == Sum(Moved(Positions(pieces[0], stride), from), f)
          + Sum(PiecePositions(pieces[1..], stride, from + pieces[0]), f)
  {
    SumConcat(Moved(Positions(pieces[0], stride), from), PiecePositions(pieces[1..], stride, from + pieces[0]), f);
  }

  lemma {:induction false} ReadSamplesFrom(file: seq<byte>, from: nat, pieces: seq<nat>, stride: nat)
    requires stride > 0 && from <= |file| && Splits(pieces, |file[from..]|)
    ensures ReadScan(file[from..], pieces, stride).samples == Sum(pieces, SamplesOf(stride))
    decreases |pieces|
  {
    if pieces != [] {
      ReadScanStep(file, from, pieces, stride);
      FirstPieceIs(file, from, pieces[0], stride);
      ReadSamplesFrom(file, from + pieces[0], pieces[1..], stride);
    }
  }

  lemma ReadSumStep(file: seq<byte>, from: nat, pieces: seq<nat>, stride: nat, whole: nat, rest: nat)
    requires stride > 0 && pieces != [] && from + pieces[0] <= |file|
    requires whole == FlatScan(file[from..from + pieces[0]], stride).sum + rest
    requires rest == Sum(PiecePositions(pieces[1..], stride, from + pieces[0]), At(file))
    ensures whole == Sum(PiecePositions(pieces, stride, from), At(file))
  {
    FirstPieceIs(file, from, pieces[0], stride);
    PiecePositionsStep(pieces, stride, from, At(file));
  }

  lemma {:induction false} ReadSumFrom(file: seq<byte>, from: nat, pieces: seq<nat>, stride: nat)
    requires stride > 0 && from <= |file| && Splits(pieces, |file[from..]|)
    ensures ReadScan(file[from..], pieces, stride).sum == Sum(PiecePositions(pieces, stride, from), At(file))
    decreases |pieces|
  {
    if pieces != [] {
      var n := pieces[0];
      SplitsRest(pieces, |file[from..]|);
      ReadSumFrom(file, from + n, pieces[1..], stride);
      ReadScanStep(file, from, pieces, stride);
      ReadSumStep(file, from, pieces, stride, ReadScan(file[from..], pieces, stride).sum,
        ReadScan(file[from + n..], pieces[1..], stride).sum);
    }
  }

  /** Reading piece by piece samples each piece at the multiples of the stride from its own start. */
  lemma ReadScanIs(file: seq<byte>, pieces: seq<nat>, stride: nat)
    requires stride > 0 && Splits(pieces, |file|)
    ensures ReadScan(file, pieces, stride).samples == Sum(pieces, SamplesOf(stride))
    ensures ReadScan(file, pieces, stride).sum == Sum(PiecePositions(pieces, stride, 0), At(file))
  {
    assert file[0..] == file;
    ReadSamplesFrom(file, 0, pieces, stride);
    ReadSumFrom(file, 0, pieces, stride);
  }

  /** Place `p` lies in the `i`th piece, a whole number of strides after its start. */
  predicate SampledIn(p: nat, i: nat, pieces: seq<nat>, stride: nat, from: nat)
    requires stride > 0
  {
    && i < |pieces|
    && from + Length(pieces[..i]) <= p < from + Length(pieces[..i]) + pieces[i]
    && (p - from - Length(pieces[..i])) % stride == 0
  }

  lemma InMoved(p: nat, n: nat, stride: nat, from: nat)
    requires stride > 0
    ensures p in Moved(Positions(n, stride), from) <==> from <= p < from + n && (p - from) % stride == 0
  {
    var s := Positions(n, stride);
    if p in Moved(s, from) {
      var i :| 0 <= i < |s| && Moved(s, from)[i] == p;
      assert s[i] in s;
      PositionsAre(n, stride, p - from);
    }
    if from <= p < from + n && (p - from) % stride == 0 {
      PositionsAre(n, stride, p - from);
      var i :| 0 <= i < |s| && s[i] == p - from;
      assert Moved(s, from)[i] == p;
    }
  }

  lemma LaterPiece(p: nat, i: nat, pieces: seq<nat>, stride: nat, from: nat)
    requires stride > 0 && i < |pieces| - 1
    ensures SampledIn(p, i, pieces[1..], stride, from + pieces[0]) <==> SampledIn(p, i + 1, pieces, stride, from)
  {
    assert pieces[..i + 1][1..] == pieces[1..][..i];
  }

  lemma FirstOnly(p: nat, pieces: seq<nat>, stride: nat, from: nat, none: seq<nat>)
    requires stride > 0 && pieces != [] && none == pieces[..0]
    ensures SampledIn(p, 0, pieces, stride, from) <==> from <= p < from + pieces[0] && (p - from) % stride == 0
  {
    assert none == [] && Length(none) == 0;
    assert p - from - Length(none) == p - from;
  }

  /** A place is sampled in the first piece, or in what follows it. */
  lemma FirstOrLater(p: nat, pieces: seq<nat>, stride: nat, from: nat, next: nat)
    requires stride > 0 && pieces != [] && next == from + pieces[0]
    ensures (exists i: nat :: SampledIn(p, i, pieces, stride, from)) <==>
      || (from <= p < next && (p - from) % stride == 0)
      || (exists i: nat :: SampledIn(p, i, pieces[1..], stride, next))
  {
    FirstOnly(p, pieces, stride, from, pieces[..0]);
    if i: nat :| SampledIn(p, i, pieces, stride, from) {
      if i > 0 { LaterPiece(p, i - 1, pieces, stride, from); }
    }
    if i: nat :| SampledIn(p, i, pieces[1..], stride, next) { LaterPiece(p, i, pieces, stride, from); }
  }

  /** The places sampled, without the recursion. */
  lemma {:induction false} PiecePositionsAre(p: nat, pieces: seq<nat>, stride: nat, from: nat)
    requires stride > 0
    ensures p in PiecePositions(pieces, stride, from) <==> exists i: nat :: SampledIn(p, i, pieces, stride, from)
  {
    if pieces != [] {
      InMoved(p, pieces[0], stride, from);
      PiecePositionsAre(p, pieces[1..], stride, from + pieces[0]);
      FirstOrLater(p, pieces, stride, from, from + pieces[0]);
    }
  }

  /** Every piece but the last is a whole number of strides. */
  predicate Aligned(pieces: seq<nat>, stride: nat)
    requires stride > 0
  {
    forall i :: 0 <= i < |pieces| - 1 ==> pieces[i] % stride == 0
  }

  lemma AlignedRest(pieces: seq<nat>, stride: nat)
    requires stride > 0 && |pieces| >= 2
    ensures Aligned(pieces, stride) <==> pieces[0] % stride == 0 && Aligned(pieces[1..], stride)
  {
    if pieces[0] % stride == 0 && Aligned(pieces[1..], stride) {
      forall i | 0 <= i < |pieces| - 1 ensures pieces[i] % stride == 0 {
        if i > 0 { assert pieces[i] == pieces[1..][i - 1]; }
      }
    }
    if Aligned(pieces, stride) {
      forall i | 0 <= i < |pieces[1..]| - 1 ensures pieces[1..][i] % stride == 0 {
        assert pieces[1..][i] == pieces[i + 1];
      }
    }
  }

  /** Sampling goes on after a cut at `at` as if it had started there. */
  lemma {:induction false} SampledAfter(data: seq<byte>, at: nat, off: nat, stride: nat)
    requires stride > 0 && at <= |data|
    ensures Sampled(data, at + off, stride) == Sampled(data[at..], off, stride)
    decreases |data| - off
  {
    if at + off < |data| {
      SampledAfter(data, at, off + stride, stride);
    }
  }

  lemma OneStrideLess(d: nat, stride: nat)
    requires stride > 0 && d > 0 && d % stride == 0
    ensures d >= stride && (d - stride) % stride == 0
  {
    var q := d / stride;
    assert d == stride * q;
    MulOrder(stride, q);
    assert d - stride == stride * (q - 1);
    ModUnique(d - stride, stride, q - 1, 0);
  }

  lemma OneStrideMore(d: nat, stride: nat)
    requires stride > 0
    ensures (d + stride) % stride == d % stride
  {
    var q := d / stride;
    assert d + stride == stride * (q + 1) + d % stride;
    ModUnique(d + stride, stride, q + 1, d % stride);
  }

  lemma FirstSample(data: seq<byte>, at: nat, off: nat, stride: nat)
    requires stride > 0 && off < at <= |data|
    requires Sampled(data, off + stride, stride)
          == Sampled(data[..at], off + stride, stride).Plus(FlatScan(data[at..], stride))
    ensures Sampled(data, off, stride) == Sampled(data[..at], off, stride).Plus(FlatScan(data[at..], stride))
  {
    assert data[..at][off] == data[off];
  }

  /** A cut a whole number of strides on divides the samples between the two parts. */
  lemma {:induction false} SampledSplits(data: seq<byte>, at: nat, off: nat, stride: nat)
    requires stride > 0 && off <= at <= |data| && (at - off) % stride == 0
    ensures Sampled(data, off, stride)
         == Sampled(data[..at], off, stride).Plus(FlatScan(data[at..], stride))
    decreases at - off
  {
    if off == at {
      SampledAfter(data, at, 0, stride);
      assert Sampled(data[..at], at, stride) == Tally(0, 0);
    } else {
      OneStrideLess(at - off, stride);
      assert off + stride <= at;
      SampledSplits(data, at, off + stride, stride);
      FirstSample(data, at, off, stride);
    }
  }

  lemma FlatSplits(data: seq<byte>, at: nat, stride: nat)
    requires stride > 0 && at <= |data| && at % stride == 0
    ensures FlatScan(data, stride) == FlatScan(data[..at], stride).Plus(FlatScan(data[at..], stride))
  {
    SampledSplits(data, at, 0, stride);
  }

  lemma SplitsRest(pieces: seq<nat>, n: nat)
    requires Splits(pieces, n) && pieces != []
    ensures pieces[0] <= n && Splits(pieces[1..], n - pieces[0])
    ensures |pieces| >= 2 ==> pieces[0] < n
  {
    if |pieces| >= 2 { assert pieces[1..][0] > 0; }
  }

  /** With aligned pieces the two scans agree on every file. */
  lemma {:induction false} AlignedAgrees(data: seq<byte>, pieces: seq<nat>, stride: nat)
    requires stride > 0 && Splits(pieces, |data|) && Aligned(pieces, stride)
    ensures ReadScan(data, pieces, stride) == FlatScan(data, stride)
    decreases |pieces|
  {
    if |pieces| == 1 {
      assert data[..pieces[0]] == data && data[pieces[0]..] == [];
    } else if |pieces| >= 2 {
      SplitsRest(pieces, |data|);
      AlignedRest(pieces, stride);
      AlignedAgrees(data[pieces[0]..], pieces[1..], stride);
      FlatSplits(data, pieces[0], stride);
    }
  }

  predicate AllZero(data: seq<byte>) {
    forall i :: 0 <= i < |data| ==> data[i] == 0
  }

  function Zeros(n: nat): (data: seq<byte>)
    ensures |data| == n && AllZero(data)
  {
    seq(n, _ => 0)
  }

  lemma {:induction false} ZerosSum(data: seq<byte>, off: nat, stride: nat)
    requires stride > 0 && AllZero(data)
    ensures Sampled(data, off, stride).sum == 0
    decreases |data| - off
  {
    if off < |data| { ZerosSum(data, off + stride, stride); }
  }

  lemma {:induction false} ZerosReadSum(data: seq<byte>, pieces: seq<nat>, stride: nat)
    requires stride > 0 && Splits(pieces, |data|) && AllZero(data)
    ensures ReadScan(data, pieces, stride).sum == 0
    decreases |pieces|
  {
    if pieces != [] {
      SplitsRest(pieces, |data|);
      ZerosSum(data[..pieces[0]], 0, stride);
      ZerosReadSum(data[pieces[0]..], pieces[1..], stride);
    }
  }

  /** Zero everywhere but at `at`, where it is 1. */
  predicate Spike(data: seq<byte>, at: nat) {
    at < |data| && forall i :: 0 <= i < |data| ==> data[i] == if i == at then 1 else 0
  }

  /** A spike on no multiple of the stride is stepped over by the flat scan. */
  lemma {:induction false} SpikeMissed(data: seq<byte>, at: nat, off: nat, stride: nat)
    requires stride > 0 && Spike(data, at) && at % stride != 0 && off % stride == 0
    ensures Sampled(data, off, stride).sum == 0
    decreases |data| - off
  {
    if off < |data| {
      OneStrideMore(off, stride);
      SpikeMissed(data, at, off + stride, stride);
    }
  }

  /** A spike at the start of the first piece is sampled. */
  lemma SpikeSeen(data: seq<byte>, pieces: seq<nat>, stride: nat)
    requires stride > 0 && Splits(pieces, |data|) && pieces != [] && Spike(data, 0)
    ensures ReadScan(data, pieces, stride).sum == 1
  {
    SplitsRest(pieces, |data|);
    SpikeOnce(data[..pieces[0]], stride, stride);
    ZerosReadSum(data[pieces[0]..], pieces[1..], stride);
  }

  /** Past a spike at the start there is nothing more to add. */
  lemma {:induction false} SpikeOnce(data: seq<byte>, off: nat, stride: nat)
    requires stride > 0 && Spike(data, 0) && off > 0
    ensures Sampled(data, off, stride).sum == 0
    decreases |data| - off
  {
    if off < |data| { SpikeOnce(data, off + stride, stride); }
  }

  /** A file on which misaligned pieces add up to something else: one byte set, where a piece starts off the stride. */
  lemma {:induction false} MisalignedDiffers(pieces: seq<nat>, n: nat, stride: nat) returns (data: seq<byte>)
    requires stride > 0 && Splits(pieces, n) && !Aligned(pieces, stride)
    ensures |data| == n
    ensures ReadScan(data, pieces, stride).sum == 1 && FlatScan(data, stride).sum == 0
    decreases |pieces|
  {
    SplitsRest(pieces, n);
    AlignedRest(pieces, stride);
    var a := pieces[0];
    if a % stride == 0 {
      var rest := MisalignedDiffers(pieces[1..], n - a, stride);
      data := Zeros(a) + rest;
      ZerosInFront(data, rest, pieces, stride);
    } else {
      data := Zeros(a) + [1] + Zeros(n - a - 1);
      SpikeMissed(data, a, 0, stride);
      assert data[..a] == Zeros(a);
      ZerosSum(data[..a], 0, stride);
      SpikeSeen(data[a..], pieces[1..], stride);
    }
  }

  /** An aligned piece of zeros in front changes neither sum. */
  lemma ZerosInFront(data: seq<byte>, rest: seq<byte>, pieces: seq<nat>, stride: nat)
    requires stride > 0 && pieces != [] && data == Zeros(pieces[0]) + rest && pieces[0] % stride == 0
    requires Splits(pieces, |data|)
    ensures Splits(pieces[1..], |rest|)
    ensures ReadScan(data, pieces, stride).sum == ReadScan(rest, pieces[1..], stride).sum
    ensures FlatScan(data, stride).sum == FlatScan(rest, stride).sum
  {
    var a := pieces[0];
    assert data[..a] == Zeros(a) && data[a..] == rest;
    ZerosSum(data[..a], 0, stride);
    FlatSplits(data, a, stride);
  }

  /**
   * For files of a given length read in given pieces: the reports agree, whatever the contents,
   * exactly when every piece but the last is a multiple of the stride.
   */
  lemma ScansAgreeIff(pieces: seq<nat>, n: nat, stride: nat)
    requires stride > 0 && Splits(pieces, n)
    ensures Aligned(pieces, stride) <==>
      (forall data: seq<byte> | |data| == n ::
        Reported(ReadScan(data, pieces, stride)) == Reported(FlatScan(data, stride)))
    ensures Aligned(pieces, stride) <==>
      (forall data: seq<byte> | |data| == n ::
        Reported(ReadScan(data, pieces, stride)).checksum == Reported(FlatScan(data, stride)).checksum)
  {
    if Aligned(pieces, stride) {
      forall data: seq<byte> | |data| == n
        ensures ReadScan(data, pieces, stride) == FlatScan(data, stride)
      {
        AlignedAgrees(data, pieces, stride);
      }
    } else {
      var data := MisalignedDiffers(pieces, n, stride);
      assert Reported(ReadScan(data, pieces, stride)).checksum != Reported(FlatScan(data, stride)).checksum;
    }
  }

  /** The pieces when every `read` fills the buffer until the end of the file. */
  function FullReads(n: nat, chunk: nat): seq<nat>
    requires chunk > 0
  {
    if n == 0 then [] else if n <= chunk then [n] else [chunk] + FullReads(n - chunk, chunk)
  }

  lemma {:induction false} FullReadsSplit(n: nat, chunk: nat)
    requires chunk > 0
    ensures Splits(FullReads(n, chunk), n)
  {
    if n > chunk { FullReadsSplit(n - chunk, chunk); }
  }

  /** Full buffers are aligned exactly when the buffer is a whole number of strides, or is never refilled. */
  lemma {:induction false} FullReadsAligned(n: nat, chunk: nat, stride: nat)
    requires chunk > 0 && stride > 0
    ensures Aligned(FullReads(n, chunk), stride) <==> chunk % stride == 0 || n <= chunk
  {
    if n > chunk {
      var pieces := FullReads(n, chunk);
      assert pieces[1..] == FullReads(n - chunk, chunk);
      AlignedRest(pieces, stride);
      FullReadsAligned(n - chunk, chunk, stride);
    }
  }

  /** With full pieces, the program's two modes agree on all files of `n` bytes iff the buffer fits the stride. */
  lemma FullReadsAgreeIff(n: nat, chunk: nat, stride: nat)
    requires chunk > 0 && stride > 0
    ensures Splits(FullReads(n, chunk), n)
    ensures (chunk % stride == 0 || n <= chunk) <==>
      (forall data: seq<byte> | |data| == n ::
        Reported(ReadScan(data, FullReads(n, chunk), stride)) == Reported(FlatScan(data, stride)))
  {
    FullReadsSplit(n, chunk);
    FullReadsAligned(n, chunk, stride);
    ScansAgreeIff(FullReads(n, chunk), n, stride);
  }

  /** The sampling loop over the first `n` bytes of a buffer, adding to the counters of the caller. */
  method Sample(buf: array<byte>, n: nat, stride: nat, before: Report, ghost acc: Tally)
    returns (after: Report)
    requires stride > 0 && n <= buf.Length && before == Reported(acc)
    ensures after == Reported(acc.Plus(FlatScan(buf[..n], stride)))
  {
    var samples: word, checksum: word := before.samples, before.checksum;
    var off := 0;
    ghost var done := acc;
    while off < n
      invariant Report(samples, checksum) == Reported(done)
      invariant done.Plus(Sampled(buf[..n], off, stride)) == acc.Plus(FlatScan(buf[..n], stride))
      decreases n - off
    {
      ResidueAdd(done.sum, buf[off], TWO64);
      ResidueAdd(done.samples, 1, TWO64);
      checksum := Wrap(checksum + buf[off]);
      samples := Wrap(samples + 1);
      done := Tally(done.samples + 1, done.sum + buf[off]);
      off := off + stride;
    }
    after := Report(samples, checksum);
  }

  /** `read`: the next `n` bytes of the file overwrite the start of the buffer. */
  method Fill(buf: array<byte>, file: seq<byte>, pos: nat, n: nat)
    requires pos + n <= |file| && n <= buf.Length
    modifies buf
    ensures buf[..n] == file[pos..pos + n]
    ensures buf[n..] == old(buf[n..])
  {
    var i := 0;
    while i < n
      invariant i <= n && buf[..i] == file[pos..pos + i] && buf[i..] == old(buf[i..])
    {
      buf[i] := file[pos + i];
      i := i + 1;
    }
  }

  /** After the first `k` pieces, `pos` bytes: what has been added up and what is to come make the whole. */
  ghost predicate Underway(file: seq<byte>, pieces: seq<nat>, stride: nat, pos: nat, k: nat, acc: Tally)
    requires stride > 0 && Splits(pieces, |file|)
  {
    && k <= |pieces| && pos <= |file| && Splits(pieces[k..], |file[pos..]|)
    && acc.Plus(ReadScan(file[pos..], pieces[k..], stride)) == ReadScan(file, pieces, stride)
  }

  lemma NextPiece(file: seq<byte>, pieces: seq<nat>, stride: nat, pos: nat, k: nat, acc: Tally)
    requires stride > 0 && Splits(pieces, |file|) && Underway(file, pieces, stride, pos, k, acc) && k < |pieces|
    ensures pos + pieces[k] <= |file|
    ensures Underway(file, pieces, stride, pos + pieces[k], k + 1,
      acc.Plus(FlatScan(file[pos..pos + pieces[k]], stride)))
  {
    var n := pieces[k];
    SplitsRest(pieces[k..], |file[pos..]|);
    assert pieces[k..][1..] == pieces[k + 1..];
    assert file[pos..][..n] == file[pos..pos + n];
    assert file[pos..][n..] == file[pos + n..];
    var piece, rest := FlatScan(file[pos..pos + n], stride), ReadScan(file[pos + n..], pieces[k + 1..], stride);
    assert ReadScan(file[pos..], pieces[k..], stride) == piece.Plus(rest);
    assert acc.Plus(piece).Plus(rest) == acc.Plus(piece.Plus(rest));
  }

  lemma LastPiece(file: seq<byte>, pieces: seq<nat>, stride: nat, pos: nat, acc: Tally)
    requires stride > 0 && Splits(pieces, |file|) && Underway(file, pieces, stride, pos, |pieces|, acc)
    ensures acc == ReadScan(file, pieces, stride)
  {
    assert pieces[|pieces|..] == [];
  }

  lemma FirstPiece(file: seq<byte>, pieces: seq<nat>, stride: nat)
    requires stride > 0 && Splits(pieces, |file|)
    ensures Underway(file, pieces, stride, 0, 0, Tally(0, 0))
  {
    assert file[0..] == file && pieces[0..] == pieces;
  }

  /** Read mode: one reused buffer, a `read` per piece as long as the kernel returns bytes. */
  method ReadMode(file: seq<byte>, pieces: seq<nat>, chunk: nat, stride: nat) returns (r: Report)
    requires stride > 0 && Splits(pieces, |file|) && forall i :: 0 <= i < |pieces| ==> pieces[i] <= chunk
    ensures r == Reported(ReadScan(file, pieces, stride))
    ensures r.samples == Wrap(Sum(pieces, SamplesOf(stride)))
    ensures r.checksum == Wrap(Sum(PiecePositions(pieces, stride, 0), At(file)))
  {
    var buf := new byte[chunk](_ => 0);
    r := Report(0, 0);
    var pos, k := 0, 0;
    ghost var acc := Tally(0, 0);
    FirstPiece(file, pieces, stride);
    while k < |pieces|
      invariant 0 <= k <= |pieces| && 0 <= pos
      invariant Underway(file, pieces, stride, pos, k, acc)
      invariant r == Reported(acc)
    {
      var n := pieces[k];
      NextPiece(file, pieces, stride, pos, k, acc);
      Fill(buf, file, pos, n);
      r := Sample(buf, n, stride, r, acc);
      acc := acc.Plus(FlatScan(file[pos..pos + n], stride));
      pos, k := pos + n, k + 1;
    }
    LastPiece(file, pieces, stride, pos, acc);
    ReadScanIs(file, pieces, stride);
  }

  /** Map mode: the whole file is one region. */
  method MmapMode(region: array<byte>, stride: nat) returns (r: Report)
    requires stride > 0
    ensures r == Reported(FlatScan(region[..], stride))
    ensures r.samples == Wrap(CeilDiv(region.Length, stride))
    ensures r.checksum == Wrap(Sum(Positions(region.Length, stride), At(region[..])))
  {
    FlatScanIs(region[..], stride);
    assert region[..region.Length] == region[..];
    r := Sample(region, region.Length, stride, Report(0, 0), Tally(0, 0));
  }
}
