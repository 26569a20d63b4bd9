/** Undoing the shift-and-exclusive-or steps of the programs' mixing functions. */
module Undo {
  import opened Bits
  import opened Folds
  import opened Word64

  /** The `x` with `y == x ^ (x >> k)`, after `n` rounds of putting back what is known of `x`. */
  function UndoDown(y: nat, k: nat, n: nat): nat {
    if n == 0 then y else BitXor(y, Halved(UndoDown(y, k, n - 1), k))
  }

  /** The `x` with `y == x ^ (x << k)`, likewise. */
  function UndoUp(y: nat, k: nat, n: nat): nat {
    if n == 0 then y else BitXor(y, Wrap(Shifted(UndoUp(y, k, n - 1), k)))
  }

  lemma {:induction false} HalvedTwice(x: nat, a: nat, b: nat)
    ensures Halved(Halved(x, a), b) == Halved(x, a + b)
  {
    if a > 0 { HalvedTwice(x / 2, a - 1, b); }
  }

  lemma {:induction false} ShiftedTwice(x: nat, a: nat, b: nat)
    ensures Shifted(Shifted(x, a), b) == Shifted(x, a + b)
  {
    if b > 0 { ShiftedTwice(x, a, b - 1); }
  }

  lemma WrapOfDouble(y: nat)
    ensures Wrap(2 * Wrap(y)) == Wrap(2 * y)
  {
    ResidueAdd(y, Wrap(y), TWO64);
    ResidueAdd(y, y, TWO64);
  }

  lemma {:induction false} WrapOfShifted(x: nat, k: nat)
    ensures Wrap(Shifted(Wrap(x), k)) == Wrap(Shifted(x, k))
  {
    if k == 0 {
      ResidueAdd(x, 0, TWO64);
    } else {
      WrapOfShifted(x, k - 1);
      WrapOfDouble(Shifted(Wrap(x), k - 1));
      WrapOfDouble(Shifted(x, k - 1));
    }
  }

  /** What `x ^ a` and `x ^ b` leave when `a` cancels. */
  lemma XorTelescopes(x: nat, a: nat, b: nat)
    ensures BitXor(BitXor(x, a), BitXor(a, b)) == BitXor(x, b)
  {
    XorAssociates(x, a, BitXor(a, b));
    XorAssociates(a, a, b);
    XorCancels(a);
  }

  lemma DownRound(x: nat, k: nat, d: nat)
    ensures BitXor(BitXor(x, Halved(x, k)), Halved(BitXor(x, Halved(x, d)), k)) == BitXor(x, Halved(x, d + k))
  {
    XorHalved(x, Halved(x, d), k);
    HalvedTwice(x, d, k);
    XorTelescopes(x, Halved(x, k), Halved(x, d + k));
  }

  /** Each round moves the error `k` places further down. */
  lemma {:induction false} DownError(x: nat, k: nat, n: nat)
    ensures UndoDown(BitXor(x, Halved(x, k)), k, n) == BitXor(x, Halved(x, Times(k, n + 1)))
  {
    if n == 0 {
      assert Times(k, 1) == k;
    } else {
      DownError(x, k, n - 1);
      DownRound(x, k, Times(k, n));
    }
  }

  lemma UpRound(x: nat, k: nat, d: nat)
    ensures BitXor(BitXor(x, Wrap(Shifted(x, k))), Wrap(Shifted(BitXor(x, Wrap(Shifted(x, d))), k)))
         == BitXor(x, Wrap(Shifted(x, d + k)))
  {
    XorUp(x, Wrap(Shifted(x, d)), k);
    WrapOfShifted(Shifted(x, d), k);
    ShiftedTwice(x, d, k);
    XorTelescopes(x, Wrap(Shifted(x, k)), Wrap(Shifted(x, d + k)));
  }

  lemma {:induction false} UpError(x: nat, k: nat, n: nat)
    ensures UndoUp(BitXor(x, Wrap(Shifted(x, k))), k, n) == BitXor(x, Wrap(Shifted(x, Times(k, n + 1))))
  {
    if n == 0 {
      assert Times(k, 1) == k;
    } else {
      UpError(x, k, n - 1);
      UpRound(x, k, Times(k, n));
    }
  }

  lemma XorNothing(x: nat)
    ensures BitXor(x, 0) == x
  {
  }

  lemma {:induction false} HalvedAway(x: nat, k: nat)
    requires x < Pow2(k)
    ensures Halved(x, k) == 0
  {
    if k > 0 { HalvedAway(x / 2, k - 1); }
  }

  lemma ShiftedAway(x: nat, k: nat)
    requires k >= 64
    ensures Wrap(Shifted(x, k)) == 0
  {
    ShiftedTwice(x, k - 64, 64);
    ShiftedIs(Shifted(x, k - 64), 64);
    TwoTo64();
    ResiduePeriods(0, Shifted(x, k - 64), TWO64);
  }

  /** Once the error has left the word nothing of it remains. */
  lemma DownUndone(x: word, k: nat, n: nat)
    requires k * (n + 1) >= 64
    ensures UndoDown(BitXor(x, Halved(x, k)), k, n) == x
  {
    var d := Times(k, n + 1);
    TimesIs(k, n + 1);
    DownError(x, k, n);
    TwoTo64();
    Pow2Monotone(64, d);
    HalvedAway(x, d);
    XorNothing(x);
  }

  lemma UpUndone(x: word, k: nat, n: nat)
    requires k * (n + 1) >= 64
    ensures UndoUp(BitXor(x, Wrap(Shifted(x, k))), k, n) == x
  {
    TimesIs(k, n + 1);
    UpError(x, k, n);
    ShiftedAway(x, Times(k, n + 1));
    XorNothing(x);
  }
}
