/** Walking a range of `n` places from 0 in steps of `stride`. */
module Strides {
  import opened Word64

  function CeilDiv(a: nat, b: nat): nat
    requires b > 0
  {
    (a + b - 1) / b
  }

  /** The rounded-up quotient counts the multiples of `b` below `a`. */
  lemma CeilDivCounts(a: nat, b: nat, k: nat)
    requires b > 0
    ensures k < CeilDiv(a, b) <==> k * b < a
  {
    var q, r := CeilDiv(a, b), (a + b - 1) % b;
    assert a + b - 1 == b * q + r;
    if k < q {
      MulOrder(b, q - k);
      assert b * (q - k) == b * q - k * b;
    } else if k > q {
      MulOrder(b, k - q);
      assert b * (k - q) == k * b - b * q;
    }
  }

  /** The positions visited. */
  function Positions(n: nat, stride: nat): (s: seq<nat>)
    requires stride > 0
    ensures |s| == CeilDiv(n, stride)
  {
    seq(CeilDiv(n, stride), k requires k >= 0 => k * stride)
  }

  predicate Increasing(s: seq<nat>) {
    forall i, j :: 0 <= i < j < |s| ==> s[i] < s[j]
  }

  lemma PositionsIncrease(n: nat, stride: nat)
    requires stride > 0
    ensures Increasing(Positions(n, stride))
  {
    forall i, j | 0 <= i < j < CeilDiv(n, stride) ensures Positions(n, stride)[i] < Positions(n, stride)[j] {
      MulOrder(stride, j - i);
      assert stride * (j - i) == j * stride - i * stride;
    }
  }

  /** Every multiple of the stride below `n` is visited, and nothing else. */
  lemma PositionsAre(n: nat, stride: nat, i: nat)
    requires stride > 0
    ensures i in Positions(n, stride) <==> i < n && i % stride == 0
  {
    if i in Positions(n, stride) {
      var k :| 0 <= k < CeilDiv(n, stride) && k * stride == i;
      CeilDivCounts(n, stride, k);
      ModUnique(i, stride, k, 0);
    }
    if i < n && i % stride == 0 {
      assert i == (i / stride) * stride;
      CeilDivCounts(n, stride, i / stride);
      assert Positions(n, stride)[i / stride] == i;
    }
  }
}
