/** The TLB lab's linear congruential generator: its period, its seeds and the exchanges it picks. */
module Generator {
  import opened Bits
  import opened FisherYates
  import opened Word64

  const MULTIPLIER: nat := 2862933555777941757
  const INCREMENT: nat := 3037000493
  const DEFAULT_SEED: word := 88172645463393265
  const GOLDEN: nat := 0x9e37_79b9_7f4a_7c15

  function Lcg(x: word): word {
    Wrap(x * MULTIPLIER + INCREMENT)
  }

  function StartState(seed: word): word {
    if seed != 0 then seed else DEFAULT_SEED
  }

  /** The state after `n` calls. */
  function After(x: word, n: nat): word {
    if n == 0 then x else Lcg(After(x, n - 1))
  }

  // ---------- The period ----------

  /** The `n`th power of `a`, and the sum of the powers below it. */
  function Power(a: nat, n: nat): nat { if n == 0 then 1 else a * Power(a, n - 1) }

  function Series(a: nat, n: nat): nat { if n == 0 then 0 else 1 + a * Series(a, n - 1) }

  /** The state before it is wrapped. */
  function Unwrapped(x: nat, a: nat, c: nat, n: nat): nat {
    if n == 0 then x else a * Unwrapped(x, a, c, n - 1) + c
  }

  lemma SeriesStep(a: nat, u: nat, x: nat, s: nat, c: nat)
    requires a > 0 && u == x + s * ((a - 1) * x + c)
    ensures a * u + c == x + (1 + a * s) * ((a - 1) * x + c)
  {
    var d := (a - 1) * x + c;
    assert a * u == a * x + a * (s * d);
    assert (1 + a * s) * d == d + a * (s * d) by { assert (a * s) * d == a * (s * d); }
  }

  lemma {:induction false} UnwrappedIs(x: nat, a: nat, c: nat, n: nat)
    requires a > 0
    ensures Unwrapped(x, a, c, n) == x + Series(a, n) * ((a - 1) * x + c)
  {
    if n > 0 {
      UnwrappedIs(x, a, c, n - 1);
      SeriesStep(a, Unwrapped(x, a, c, n - 1), x, Series(a, n - 1), c);
    }
  }

  lemma {:induction false} AfterIsWrapped(x: word, n: nat)
    ensures After(x, n) == Wrap(Unwrapped(x, MULTIPLIER, INCREMENT, n))
  {
    if n > 0 {
      AfterIsWrapped(x, n - 1);
      WrapOfProduct(Unwrapped(x, MULTIPLIER, INCREMENT, n - 1), MULTIPLIER, INCREMENT);
    }
  }

  /** Whether the low `k` digits are zeros. */
  predicate EndsInZeros(n: nat, k: nat) {
    k == 0 || (n % 2 == 0 && EndsInZeros(n / 2, k - 1))
  }

  lemma {:induction false} EndsInZerosIs(n: nat, k: nat)
    ensures EndsInZeros(n, k) <==> n % Pow2(k) == 0
  {
    if k > 0 {
      EndsInZerosIs(n / 2, k - 1);
      ModDouble(n, Pow2(k - 1));
    }
  }

  lemma OddProduct(u: nat, h: nat)
    ensures (u * (2 * h + 1)) % 2 == u % 2
    ensures u % 2 == 0 ==> u * (2 * h + 1) / 2 == u / 2 * (2 * h + 1)
  {
    assert u * (2 * h + 1) == 2 * (u * h) + u;
    if u % 2 == 0 {
      assert u * (2 * h + 1) == 2 * (u / 2 * (2 * h + 1));
    }
  }

  /** An odd factor changes nothing. */
  lemma {:induction false} OddFactor(u: nat, h: nat, k: nat)
    ensures EndsInZeros(u * (2 * h + 1), k) <==> EndsInZeros(u, k)
  {
    if k > 0 {
      OddProduct(u, h);
      if u % 2 == 0 { OddFactor(u / 2, h, k - 1); }
    }
  }

  lemma AddSeries(a: nat, p: nat, s: nat, t: nat)
    ensures 1 + a * (s + p * t) == (1 + a * s) + (a * p) * t
  {
    assert a * (p * t) == (a * p) * t;
  }

  lemma {:induction false} SeriesAdds(a: nat, m: nat, n: nat)
    ensures Series(a, m + n) == Series(a, m) + Power(a, m) * Series(a, n)
  {
    if m > 0 {
      SeriesAdds(a, m - 1, n);
      AddSeries(a, Power(a, m - 1), Series(a, m - 1), Series(a, n));
    }
  }

  lemma ProductOneModFour(b: nat, d: nat) returns (e: nat)
    ensures (4 * b + 1) * (4 * d + 1) == 4 * e + 1
  {
    e := 4 * (b * d) + b + d;
    assert (4 * b + 1) * (4 * d + 1) == 4 * (4 * (b * d)) + 4 * b + 4 * d + 1;
  }

  lemma {:induction false} PowerOneModFour(b: nat, m: nat) returns (e: nat)
    ensures Power(4 * b + 1, m) == 4 * e + 1
  {
    e := 0;
    if m > 0 {
      e := PowerOneModFour(b, m - 1);
      e := ProductOneModFour(b, e);
    }
  }

  /** A series of twice the length is the series times an even number that is not a multiple of four. */
  lemma SeriesDoubles(b: nat, m: nat) returns (h: nat)
    ensures Series(4 * b + 1, 2 * m) == 2 * (Series(4 * b + 1, m) * (2 * h + 1))
  {
    h := PowerOneModFour(b, m);
    var s := Series(4 * b + 1, m);
    SeriesAdds(4 * b + 1, m, m);
    assert s + (4 * h + 1) * s == 2 * (s * (2 * h + 1));
  }

  lemma OddSeries(b: nat, m: nat)
    ensures Series(4 * b + 1, 2 * m + 1) % 2 == 1
  {
    var h := SeriesDoubles(b, m);
    OddNext(b, Series(4 * b + 1, 2 * m), Series(4 * b + 1, m) * (2 * h + 1));
  }

  /** What a step adds is odd. */
  lemma OddAdvance(x: nat, b: nat, h: nat)
    ensures (4 * b + 1 - 1) * x + (2 * h + 1) == 2 * (2 * (b * x) + h) + 1
  {
    assert (4 * b) * x == 4 * (b * x);
  }

  lemma OddNext(b: nat, s: nat, half: nat)
    requires s == 2 * half
    ensures (1 + (4 * b + 1) * s) % 2 == 1
  {
    OddAdvance(s, b, 0);
    OddSum(2 * (b * s), half);
  }

  lemma OddSum(t: nat, half: nat)
    ensures (2 * t + 1 + 2 * half) % 2 == 1
  {
  }

  /** The series ends in as many zeros as its length. */
  lemma {:induction false} SeriesZeros(b: nat, n: nat, k: nat)
    ensures EndsInZeros(Series(4 * b + 1, n), k) <==> EndsInZeros(n, k)
  {
    if k > 0 {
      if n % 2 == 1 {
        OddSeries(b, n / 2);
      } else {
        var h := SeriesDoubles(b, n / 2);
        OddFactor(Series(4 * b + 1, n / 2), h, k - 1);
        SeriesZeros(b, n / 2, k - 1);
      }
    }
  }

  lemma SameResidue(x: nat, d: nat, m: nat)
    requires m > 0
    ensures (x + d) % m == x % m <==> d % m == 0
  {
    if d % m == 0 {
      assert x + d == m * (d / m + x / m) + x % m;
      ModUnique(x + d, m, d / m + x / m, x % m);
    } else if (x + d) % m == x % m {
      assert d == m * ((x + d) / m - x / m);
      ModUnique(d, m, (x + d) / m - x / m, 0);
    }
  }

  lemma LowDigitsOfWord(u: nat, k: nat)
    requires k <= 64
    ensures Wrap(u) % Pow2(k) == u % Pow2(k)
  {
    TwoTo64();
    Pow2Add(64 - k, k);
    ResidueOfResidue(u, Pow2(64 - k), Pow2(k));
    ResidueIsMod(Wrap(u), Pow2(k));
    ResidueIsMod(u, Pow2(k));
  }

  lemma AdvancePeriod(x: nat, t: nat, n: nat, k: nat)
    requires EndsInZeros(t, k) <==> EndsInZeros(n, k)
    ensures (x + t) % Pow2(k) == x % Pow2(k) <==> n % Pow2(k) == 0
  {
    SameResidue(x, t, Pow2(k));
    EndsInZerosIs(t, k);
    EndsInZerosIs(n, k);
  }

  lemma UnwrappedPeriod(x: nat, b: nat, h: nat, n: nat, k: nat)
    ensures Unwrapped(x, 4 * b + 1, 2 * h + 1, n) % Pow2(k) == x % Pow2(k) <==> n % Pow2(k) == 0
  {
    UnwrappedIs(x, 4 * b + 1, 2 * h + 1, n);
    OddAdvance(x, b, h);
    SeriesZeros(b, n, k);
    OddFactor(Series(4 * b + 1, n), 2 * (b * x) + h, k);
    AdvancePeriod(x, Series(4 * b + 1, n) * (2 * (2 * (b * x) + h) + 1), n, k);
  }

  /**
   * The low `k` digits of the states come round after 2^k calls and not before, from whatever state;
   * with `k` equal to 64 the generator passes through every word.
   */
  lemma LowDigitsPeriod(x: word, n: nat, k: nat)
    requires k <= 64
    ensures After(x, n) % Pow2(k) == x % Pow2(k) <==> n % Pow2(k) == 0
  {
    AfterIsWrapped(x, n);
    LowDigitsOfWord(Unwrapped(x, MULTIPLIER, INCREMENT, n), k);
    UnwrappedPeriod(x, 715733388944485439, 1518500246, n, k);
  }

  lemma FullPeriod(x: word, n: nat)
    ensures After(x, n) == x <==> n % TWO64 == 0
  {
    LowDigitsPeriod(x, n, 64);
    TwoTo64();
    SmallWords(After(x, n), x, Pow2(64));
  }

  lemma SmallWords(a: nat, b: nat, p: nat)
    requires a < p && b < p
    ensures a % p == b % p <==> a == b
  {
    ModUnique(a, p, 0, a);
    ModUnique(b, p, 0, b);
  }

  /** The low bit alternates, so every exchange with the first of two places is followed by one that is not. */
  lemma LowBitAlternates(x: word)
    ensures Lcg(x) % 2 != x % 2
  {
    LowDigitsPeriod(x, 1, 1);
    assert After(x, 1) == Lcg(After(x, 0));
    assert Pow2(1) == 2;
  }

  /** From 1, the first state the program computes. */
  lemma FirstState()
    ensures Lcg(1) == 2862933558814942250
  {
    ResidueIsMod(MULTIPLIER + INCREMENT, TWO64);
  }

  // ---------- The seeds ----------

  function Mixed(now: word, n: nat): word {
    XorIsWord(now, Wrap(n * GOLDEN));
    BitXor(now, Wrap(n * GOLDEN))
  }

  /** The multiplier is odd, so it has an inverse modulo 2^64. */
  lemma OddGolden(d: int, e: int)
    requires d * 0x9e37_79b9_7f4a_7c15 == TWO64 * e
    ensures d % TWO64 == 0
  {
    assert d * (0x9e37_79b9_7f4a_7c15 * 0xf1de_83e1_9937_733d) == TWO64 * (e * 0xf1de_83e1_9937_733d);
    assert 0x9e37_79b9_7f4a_7c15 * 0xf1de_83e1_9937_733d == 1 + TWO64 * 0x957b_bf35_006e_d677;
    assert d == TWO64 * (e * 0xf1de_83e1_9937_733d - d * 0x957b_bf35_006e_d677);
  }

  /** At one clock reading, two sizes get the same seed only if they agree modulo 2^64: never, for sizes that fit. */
  lemma SeedsDiffer(now: word, m: nat, n: nat)
    ensures Mixed(now, m) == Mixed(now, n) <==> (m - n) % TWO64 == 0
  {
    if Mixed(now, m) == Mixed(now, n) {
      XorCommutes(now, Wrap(m * GOLDEN));
      XorCommutes(now, Wrap(n * GOLDEN));
      XorInjective(Wrap(m * GOLDEN), Wrap(n * GOLDEN), now);
      var e := SameWrap(m * GOLDEN, n * GOLDEN);
      OddGolden(m - n, e);
    } else if (m - n) % TWO64 == 0 {
      SameProducts(m, n);
    }
  }

  lemma SameProducts(m: nat, n: nat)
    requires (m - n) % TWO64 == 0
    ensures Wrap(m * GOLDEN) == Wrap(n * GOLDEN)
  {
    if m >= n {
      var q := (m - n) / TWO64;
      assert m * GOLDEN == n * GOLDEN + (q * GOLDEN) * TWO64;
      ResiduePeriods(n * GOLDEN, q * GOLDEN, TWO64);
    } else {
      var q := (n - m) / TWO64;
      assert n - m == TWO64 * q;
      assert n * GOLDEN == m * GOLDEN + (q * GOLDEN) * TWO64;
      ResiduePeriods(m * GOLDEN, q * GOLDEN, TWO64);
    }
  }

  /** And one size gets the same seed only at the same clock reading. */
  lemma ClocksDiffer(now: word, then': word, n: nat)
    ensures Mixed(now, n) == Mixed(then', n) <==> now == then'
  {
    if Mixed(now, n) == Mixed(then', n) { XorInjective(now, then', Wrap(n * GOLDEN)); }
  }

  // ---------- The exchanges ----------

  /** The exchanges the generator picks for `n` places; the last place is chosen first. */
  function LcgChoices(x: word, n: nat): (js: seq<nat>)
    ensures |js| == n && Choices(js)
    decreases n
  {
    if n == 0 then []
    else if n == 1 then [0]
    else LcgChoices(Lcg(x), n - 1) + [Lcg(x) % n]
  }

  lemma {:induction false} AfterNext(x: word, n: nat)
    ensures After(Lcg(x), n) == After(x, n + 1)
  {
    if n > 0 { AfterNext(x, n - 1); }
  }

  /** Place `i` of `n` is exchanged by the state after `n - i` calls, modulo the places left. */
  lemma {:induction false} ChoicesAre(x: word, n: nat, i: nat)
    requires i < n
    ensures i > 0 ==> LcgChoices(x, n)[i] == After(x, n - i) % (i + 1)
    decreases n
  {
    if n > 1 {
      if i < n - 1 {
        ChoicesAre(Lcg(x), n - 1, i);
        AfterNext(x, n - 1 - i);
      } else {
        AfterNext(x, 0);
      }
    }
  }
}
