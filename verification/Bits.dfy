/** Or, shifts and exclusive-or on binary digits, and what wrapping a word keeps of them. */
module Bits {
  import opened Word64

  /** Bitwise `|`, by its definition on binary digits. */
  function BitOr(a: nat, b: nat): nat {
    if a == 0 then b
    else if b == 0 then a
    else 2 * BitOr(a / 2, b / 2) + (if a % 2 == 1 || b % 2 == 1 then 1 else 0)
  }

  lemma {:induction false} OrSelf(a: nat)
    ensures BitOr(a, a) == a
  {
    if a != 0 { OrSelf(a / 2); }
  }

  // ---------- Shifts ----------

  /** `x << k`, without an upper end to the word. */
  function Shifted(x: nat, k: nat): nat {
    if k == 0 then x else 2 * Shifted(x, k - 1)
  }

  lemma {:induction false} ShiftedIs(x: nat, k: nat)
    ensures Shifted(x, k) == x * Pow2(k)
  {
    if k > 0 {
      ShiftedIs(x, k - 1);
      assert 2 * (x * Pow2(k - 1)) == x * (2 * Pow2(k - 1));
    }
  }

  /** `x >> k` */
  function Halved(x: nat, k: nat): nat {
    if k == 0 then x else Halved(x / 2, k - 1)
  }

  lemma HalfOfQuotient(x: nat, p: nat)
    requires p > 0
    ensures x / 2 / p == x / (2 * p)
  {
    var q, r := x / 2 / p, x / 2 % p;
    assert (2 * p) * q == 2 * (p * q);
    ModUnique(x, 2 * p, q, 2 * r + x % 2);
  }

  lemma {:induction false} HalvedIs(x: nat, k: nat)
    ensures Halved(x, k) == x / Pow2(k)
  {
    if k > 0 {
      HalvedIs(x / 2, k - 1);
      HalfOfQuotient(x, Pow2(k - 1));
    }
  }

  lemma NextOrDigit(a: nat, b: nat, e: nat, bit: nat, a': nat, b': nat)
    requires a' == 2 * a && b' == 2 * b + bit && bit < 2 && BitOr(a, b) == e
    ensures BitOr(a', b') == 2 * e + bit
  {
    assert a' / 2 == a && b' / 2 == b && a' % 2 == 0 && b' % 2 == bit;
  }

  /** Parts that share no bit: their or is their sum. */
  lemma {:induction false} OrOfParts(high: nat, low: nat, k: nat)
    requires low < Pow2(k)
    ensures BitOr(Shifted(high, k), low) == Shifted(high, k) + low
  {
    if k > 0 {
      OrOfParts(high, low / 2, k - 1);
      NextOrDigit(Shifted(high, k - 1), low / 2, Shifted(high, k - 1) + low / 2, low % 2, Shifted(high, k), low);
    }
  }

  /** The low `k` digits. */
  function Low(x: nat, k: nat): nat {
    if k == 0 then 0 else 2 * Low(x / 2, k - 1) + x % 2
  }

  /** A number by its digits from `k` on and below `k`, and back. */
  lemma {:induction false} SplitAt(x: nat, k: nat)
    ensures x == Shifted(Halved(x, k), k) + Low(x, k)
  {
    if k > 0 { SplitAt(x / 2, k - 1); }
  }

  lemma {:induction false} PartsOf(high: nat, low: nat, k: nat)
    requires low < Pow2(k)
    ensures Halved(Shifted(high, k) + low, k) == high && Low(Shifted(high, k) + low, k) == low
  {
    if k > 0 {
      PartsOf(high, low / 2, k - 1);
      assert (Shifted(high, k) + low) / 2 == Shifted(high, k - 1) + low / 2;
      assert (Shifted(high, k) + low) % 2 == low % 2;
    }
  }

  lemma {:induction false} LowBelow(x: nat, k: nat)
    ensures Low(x, k) < Pow2(k)
  {
    if k > 0 { LowBelow(x / 2, k - 1); }
  }

  lemma {:induction false} HalvedLess(x: nat, k: nat, n: nat)
    requires k <= n && x < Pow2(n)
    ensures Halved(x, k) < Pow2(n - k)
  {
    if k > 0 { HalvedLess(x / 2, k - 1, n - 1); }
  }

  lemma {:induction false} JoinedLess(high: nat, low: nat, k: nat, n: nat)
    requires k <= n && high < Pow2(n - k) && low < Pow2(k)
    ensures Shifted(high, k) + low < Pow2(n)
  {
    if k > 0 { JoinedLess(high, low / 2, k - 1, n - 1); }
  }

  lemma {:induction false} LowOfShifted(x: nat, s: nat, n: nat)
    requires s <= n
    ensures Low(Shifted(x, s), n) == Shifted(Low(x, n - s), s)
  {
    if s > 0 {
      LowOfShifted(x, s - 1, n - 1);
      assert Shifted(x, s) / 2 == Shifted(x, s - 1) && Shifted(x, s) % 2 == 0;
    }
  }

  /** `(x << s) | (x >> (n - s))` on words of `n` bits. */
  function RotateLeft(x: nat, s: nat, n: nat): nat
    requires s <= n
  {
    BitOr(Low(Shifted(x, s), n), Halved(x, n - s))
  }

  /** The two parts share no bit: the low bits have moved up and the high ones come down. */
  lemma RotatedParts(x: nat, s: nat, n: nat)
    requires s <= n && x < Pow2(n)
    ensures RotateLeft(x, s, n) == Shifted(Low(x, n - s), s) + Halved(x, n - s) < Pow2(n)
  {
    LowOfShifted(x, s, n);
    HalvedLess(x, n - s, n);
    LowBelow(x, n - s);
    OrOfParts(Low(x, n - s), Halved(x, n - s), s);
    JoinedLess(Low(x, n - s), Halved(x, n - s), s, n);
  }

  /** Rotating on to a full turn brings every word back: no bit is lost. */
  lemma RotateBack(x: nat, s: nat, n: nat)
    requires s <= n && x < Pow2(n)
    ensures RotateLeft(RotateLeft(x, s, n), n - s, n) == x
  {
    var y := RotateLeft(x, s, n);
    RotatedParts(x, s, n);
    RotatedParts(y, n - s, n);
    HalvedLess(x, n - s, n);
    PartsOf(Low(x, n - s), Halved(x, n - s), s);
    SplitAt(x, n - s);
  }

  /** What is left to a full turn; the programs take it modulo the width, so a turn by nothing stays one. */
  function RestOfTurn(s: nat, n: nat): nat
    requires s < n
  {
    if s == 0 then 0 else n - s
  }

  /** The rotation as the programs write it: a turn by nothing is `x | x`. */
  function Rotation(x: nat, s: nat, n: nat): nat
    requires s < n
  {
    BitOr(Low(Shifted(x, s), n), Halved(x, RestOfTurn(s, n)))
  }

  lemma LowOfWord(x: nat, n: nat)
    requires x < Pow2(n)
    ensures Low(x, n) == x
  {
    PartsOf(0, x, n);
    ShiftedIs(0, n);
  }

  lemma RotationIs(x: nat, s: nat, n: nat)
    requires s < n && x < Pow2(n)
    ensures Rotation(x, s, n) < Pow2(n)
    ensures s == 0 ==> Rotation(x, s, n) == x
    ensures s > 0 ==> Rotation(x, s, n) == RotateLeft(x, s, n)
  {
    if s == 0 {
      LowOfWord(x, n);
      OrSelf(x);
    } else {
      RotatedParts(x, s, n);
    }
  }

  lemma RotationBack(x: nat, s: nat, n: nat)
    requires s < n && x < Pow2(n)
    ensures Rotation(Rotation(x, s, n), RestOfTurn(s, n), n) == x
  {
    RotationIs(x, s, n);
    RotationIs(Rotation(x, s, n), RestOfTurn(s, n), n);
    if s > 0 { RotateBack(x, s, n); }
  }

  // ---------- Exclusive-or ----------

  lemma NextDigit(a: nat, b: nat, e: nat, bit: nat, a': nat, b': nat)
    requires a' == 2 * a && b' == 2 * b + bit && bit < 2 && BitXor(a, b) == e
    ensures BitXor(a', b') == 2 * e + bit
  {
    assert a' / 2 == a && b' / 2 == b && a' % 2 == 0 && b' % 2 == bit;
    XorDigits(a', b');
  }

  /** Bits above and below position `k` do not meet. */
  lemma {:induction false} XorHighLow(h: nat, y: nat, low: nat, k: nat)
    requires low < Pow2(k)
    ensures BitXor(Shifted(h, k), Shifted(y, k) + low) == Shifted(BitXor(h, y), k) + low
  {
    if k > 0 {
      XorHighLow(h, y, low / 2, k - 1);
      NextDigit(Shifted(h, k - 1), Shifted(y, k - 1) + low / 2, Shifted(BitXor(h, y), k - 1) + low / 2,
        low % 2, Shifted(h, k), Shifted(y, k) + low);
    }
  }

  /** Exclusive-or with a fixed value loses nothing. */
  lemma XorInjective(a: nat, b: nat, x: nat)
    requires BitXor(a, x) == BitXor(b, x)
    ensures a == b
  {
    XorAssociates(a, x, x);
    XorAssociates(b, x, x);
    XorCancels(x);
    XorCommutes(a, 0);
    XorCommutes(b, 0);
  }

  lemma {:induction false} XorHalved(a: nat, b: nat, k: nat)
    ensures BitXor(Halved(a, k), Halved(b, k)) == Halved(BitXor(a, b), k)
  {
    if k > 0 {
      XorDigits(a, b);
      XorHalved(a / 2, b / 2, k - 1);
    }
  }

  lemma {:induction false} LowIs(x: nat, k: nat)
    ensures Low(x, k) == x % Pow2(k)
  {
    if k > 0 {
      LowIs(x / 2, k - 1);
      ModDouble(x, Pow2(k - 1));
    }
  }

  lemma WrapIsLow(x: nat)
    ensures Wrap(x) == Low(x, 64)
  {
    LowIs(x, 64);
    TwoTo64();
    ResidueIsMod(x, TWO64);
  }

  lemma XorNext(a: nat, b: nat, e: nat, i: nat, j: nat, a': nat, b': nat)
    requires BitXor(a, b) == e && i < 2 && j < 2 && a' == 2 * a + i && b' == 2 * b + j
    ensures BitXor(a', b') == 2 * e + (i + j) % 2
  {
    assert a' / 2 == a && b' / 2 == b && a' % 2 == i && b' % 2 == j;
    XorDigits(a', b');
  }

  lemma {:induction false} XorLow(a: nat, b: nat, k: nat)
    ensures BitXor(Low(a, k), Low(b, k)) == Low(BitXor(a, b), k)
  {
    if k > 0 {
      var x := BitXor(a, b);
      XorDigits(a, b);
      XorLow(a / 2, b / 2, k - 1);
      XorNext(Low(a / 2, k - 1), Low(b / 2, k - 1), Low(x / 2, k - 1), a % 2, b % 2,
        Low(a, k), Low(b, k));
    }
  }

  /** A wrapped left shift respects exclusive-or. */
  lemma XorUp(a: nat, b: nat, k: nat)
    ensures BitXor(Wrap(Shifted(a, k)), Wrap(Shifted(b, k))) == Wrap(Shifted(BitXor(a, b), k))
  {
    XorHighLow(a, b, 0, k);
    WrapIsLow(Shifted(a, k));
    WrapIsLow(Shifted(b, k));
    WrapIsLow(Shifted(BitXor(a, b), k));
    XorLow(Shifted(a, k), Shifted(b, k), 64);
  }

  // ---------- Wrapping ----------

  lemma WrapIs(n: nat) returns (q: nat)
    ensures n == TWO64 * q + Wrap(n)
  {
    ResidueIsMod(n, TWO64);
    q := n / TWO64;
  }

  lemma WrapOfProduct(x: nat, a: nat, c: nat)
    ensures Wrap(Wrap(x) * a + c) == Wrap(x * a + c)
  {
    var q := WrapIs(x);
    assert x * a + c == (Wrap(x) * a + c) + (q * a) * TWO64 by {
      assert (TWO64 * q + Wrap(x)) * a == (q * a) * TWO64 + Wrap(x) * a;
    }
    ResiduePeriods(Wrap(x) * a + c, q * a, TWO64);
  }

  lemma SameWrap(m: nat, n: nat) returns (e: int)
    requires Wrap(m) == Wrap(n)
    ensures m - n == TWO64 * e
  {
    var q: int := WrapIs(m);
    var r: int := WrapIs(n);
    e := q - r;
  }
}
