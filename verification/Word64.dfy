/** Unsigned 64-bit arithmetic, as the C sources use it, over unbounded naturals. */
module Word64 {

  const TWO64: nat := 0x1_0000_0000_0000_0000

  type word = n: nat | n < TWO64
  type byte = n: nat | n < 256

  /** The remainder of `n` modulo `m`, taken off period by period (which keeps proofs linear). */
  function Residue(n: nat, m: nat): (r: nat)
    requires m > 0
    ensures r < m
  {
    if n < m then n else Residue(n - m, m)
  }

  /** The value a `uint64_t` holds after the mathematical result `n` is stored in it. */
  function Wrap(n: nat): word { Residue(n, TWO64) }

  /** Subtraction of two words, which wraps below zero. */
  function Sub(a: word, b: word): word {
    if a >= b then a - b else a + TWO64 - b
  }

  /** Bitwise `&`, by its definition on binary digits. */
  function And(a: nat, b: nat): nat {
    if a == 0 || b == 0 then 0
    else 2 * And(a / 2, b / 2) + (a % 2) * (b % 2)
  }

  /** Bitwise `^`, by its definition on binary digits. */
  function BitXor(a: nat, b: nat): nat {
    if a == 0 then b
    else if b == 0 then a
    else 2 * BitXor(a / 2, b / 2) + (a % 2 + b % 2) % 2
  }

  function Pow2(k: nat): (p: nat)
    ensures p > 0
  {
    if k == 0 then 1 else 2 * Pow2(k - 1)
  }

  /** The command line check on the capacity; `x - 1` is evaluated only for a non-zero `x`. */
  predicate IsPowerOfTwo(x: nat) {
    x != 0 && And(x, x - 1) == 0
  }

  lemma {:induction false} AndSelf(a: nat)
    ensures And(a, a) == a
  {
    if a != 0 { AndSelf(a / 2); }
  }

  lemma AndEven(x: nat)
    requires x > 0
    ensures And(2 * x, 2 * x - 1) == 2 * And(x, x - 1)
  {
    assert (2 * x - 1) / 2 == x - 1 && 2 * x / 2 == x;
    assert (2 * x) % 2 == 0;
  }

  lemma {:induction false} PowerPasses(k: nat)
    ensures IsPowerOfTwo(Pow2(k))
  {
    if k > 0 {
      PowerPasses(k - 1);
      AndEven(Pow2(k - 1));
    }
  }

  lemma OddFails(h: nat)
    requires h > 0
    ensures !IsPowerOfTwo(2 * h + 1)
  {
    AndSelf(h);
    assert (2 * h) / 2 == h && (2 * h + 1) / 2 == h;
  }

  lemma {:induction false} PassesPower(x: nat) returns (k: nat)
    requires IsPowerOfTwo(x)
    ensures x == Pow2(k)
  {
    if x == 1 {
      k := 0;
    } else if x % 2 == 1 {
      OddFails(x / 2);
      assert false;
    } else {
      AndEven(x / 2);
      k := PassesPower(x / 2);
      k := k + 1;
    }
  }

  /** The bit trick accepts the powers of two and nothing else. */
  lemma PowerOfTwoIff(x: nat)
    ensures IsPowerOfTwo(x) <==> exists k: nat :: x == Pow2(k)
  {
    if IsPowerOfTwo(x) {
      var k := PassesPower(x);
    }
    if k: nat :| x == Pow2(k) {
      PowerPasses(k);
    }
  }

  /** All ones: the low bit of `2p - 1` is set and the rest is `p - 1`. */
  lemma AndOnes(x: nat, p: nat)
    requires p > 0
    ensures And(x, 2 * p - 1) == 2 * And(x / 2, p - 1) + x % 2
  {
    assert (2 * p - 1) / 2 == p - 1 && (2 * p - 1) % 2 == 1;
  }

  lemma ModDouble(x: nat, p: nat)
    requires p > 0
    ensures x % (2 * p) == 2 * (x / 2 % p) + x % 2
  {
    var q, r := x / 2 / p, x / 2 % p;
    assert (2 * p) * q == 2 * (p * q);
    ModUnique(x, 2 * p, q, 2 * r + x % 2);
  }

  /** `x & (2^k - 1)` is the remainder modulo `2^k`. */
  lemma {:induction false} MaskIsMod(x: nat, k: nat)
    ensures And(x, Pow2(k) - 1) == x % Pow2(k)
  {
    if k != 0 {
      var p := Pow2(k - 1);
      MaskIsMod(x / 2, k - 1);
      AndOnes(x, p);
      ModDouble(x, p);
    }
  }

  lemma MulOrder(m: int, d: int)
    requires m > 0
    ensures d >= 1 ==> m * d >= m
    ensures d <= -1 ==> m * d <= -m
  {
    if d >= 1 { assert m * d == m + m * (d - 1); }
    if d <= -1 { assert m * d == -m + m * (d + 1); }
  }

  lemma ModUnique(n: int, m: int, q: int, r: int)
    requires m > 0 && 0 <= r < m && n == m * q + r
    ensures n % m == r && n / m == q
  {
    var q', r' := n / m, n % m;
    var d := q - q';
    assert m * d == r' - r by { assert n == m * q' + r'; assert m * d == m * q - m * q'; }
    MulOrder(m, d);
  }

  /** Two numbers within one period of each other that agree modulo the period are equal. */
  lemma ModInjective(a: int, b: int, m: int)
    requires m > 0 && a <= b < a + m
    ensures a % m == b % m <==> a == b
  {
    if a % m == b % m {
      var d := b / m - a / m;
      assert b - a == m * d by {
        assert a == m * (a / m) + a % m && b == m * (b / m) + b % m;
        assert m * d == m * (b / m) - m * (a / m);
      }
      MulOrder(m, d);
    }
  }

  lemma {:induction false} ResidueIsMod(n: nat, m: nat)
    requires m > 0
    ensures Residue(n, m) == n % m
  {
    if n < m {
      ModUnique(n, m, 0, n);
    } else {
      ResidueIsMod(n - m, m);
      ModUnique(n, m, (n - m) / m + 1, (n - m) % m);
    }
  }

  /** Indices less than a period apart fall on different residues. */
  lemma ResidueInjective(a: nat, b: nat, m: nat)
    requires m > 0 && a <= b < a + m
    ensures Residue(a, m) == Residue(b, m) <==> a == b
  {
    ResidueIsMod(a, m);
    ResidueIsMod(b, m);
    ModInjective(a, b, m);
  }

  lemma {:induction false} ResidueAdd(a: nat, b: nat, m: nat)
    requires m > 0
    ensures Residue(Residue(a, m) + b, m) == Residue(a + b, m)
  {
    if a >= m { ResidueAdd(a - m, b, m); }
  }

  lemma {:induction false} Pow2Add(a: nat, b: nat)
    ensures Pow2(a + b) == Pow2(a) * Pow2(b)
  {
    if a != 0 { Pow2Add(a - 1, b); }
  }

  lemma {:induction false} Pow2Monotone(a: nat, b: nat)
    requires a <= b
    ensures Pow2(a) <= Pow2(b)
  {
    if a < b { Pow2Monotone(a, b - 1); }
  }

  lemma TwoTo64()
    ensures Pow2(64) == TWO64
  {
    var p8, p16, p32 := Pow2(8), Pow2(16), Pow2(32);
    assert p8 == 0x100;
    Pow2Add(8, 8);
    assert p16 == 0x1_0000;
    Pow2Add(16, 16);
    assert p32 == 0x1_0000_0000;
    Pow2Add(32, 32);
  }

  /** A power of two that fits in 64 bits divides 2^64. */
  lemma PowerDivides(c: nat) returns (k: nat)
    requires IsPowerOfTwo(c) && c < TWO64
    ensures k < 64 && c == Pow2(k) && TWO64 == Pow2(64 - k) * c
  {
    k := PassesPower(c);
    TwoTo64();
    if k >= 64 { Pow2Monotone(64, k); }
    Pow2Add(64 - k, k);
  }

  /** Residues modulo a multiple of `c` keep their residue modulo `c`. */
  lemma {:induction false} ResidueOfResidue(n: nat, e: nat, c: nat)
    requires e > 0 && c > 0 && e * c > 0
    ensures Residue(Residue(n, e * c), c) == Residue(n, c)
  {
    if n >= e * c {
      ResidueOfResidue(n - e * c, e, c);
      ResiduePeriods(n - e * c, e, c);
    }
  }

  lemma {:induction false} ResiduePeriods(n: nat, e: nat, c: nat)
    requires c > 0
    ensures Residue(n + e * c, c) == Residue(n, c)
  {
    if e > 0 {
      assert e * c == (e - 1) * c + c;
      assert (e - 1) * c >= 0;
      ResiduePeriods(n, e - 1, c);
    }
  }

  /** `index & mask`, with the index wrapped, is the slot of the unbounded index. */
  lemma MaskIsSlot(n: nat, c: nat)
    requires IsPowerOfTwo(c) && c < TWO64
    ensures And(Wrap(n), c - 1) == Residue(n, c)
  {
    var k := PowerDivides(c);
    MaskIsMod(Wrap(n), k);
    ResidueIsMod(Wrap(n), c);
    ResidueOfResidue(n, Pow2(64 - k), c);
  }

  /** The wrapped difference is the true one when that lies in [0, 2^64). */
  lemma {:induction false} SubWrapped(a: nat, b: nat)
    requires b <= a < b + TWO64
    ensures Sub(Wrap(a), Wrap(b)) == a - b
  {
    if b >= TWO64 {
      SubWrapped(a - TWO64, b - TWO64);
    } else if a >= TWO64 {
      assert Residue(a - TWO64, TWO64) == a - TWO64;
    }
  }

  lemma XorDigits(a: nat, b: nat)
    ensures BitXor(a, b) / 2 == BitXor(a / 2, b / 2)
    ensures BitXor(a, b) % 2 == (a % 2 + b % 2) % 2
  {
  }

  lemma SameDigits(a: nat, b: nat)
    requires a / 2 == b / 2 && a % 2 == b % 2
    ensures a == b
  {
  }

  lemma {:induction false} XorCommutes(a: nat, b: nat)
    ensures BitXor(a, b) == BitXor(b, a)
  {
    if a != 0 && b != 0 { XorCommutes(a / 2, b / 2); }
  }

  lemma {:induction false} XorCancels(a: nat)
    ensures BitXor(a, a) == 0
  {
    if a != 0 { XorCancels(a / 2); }
  }

  function AddDigits(x: nat, y: nat): nat { if x == y then 0 else 1 }

  lemma LastDigit(a: nat, b: nat, x: nat)
    requires x % 2 == (a % 2 + b % 2) % 2
    ensures x % 2 == AddDigits(a % 2, b % 2)
  {
  }

  /** `ab` ends like `a ^ b`, `bc` like `b ^ c`, `l` like `ab ^ c` and `r` like `a ^ bc`. */
  lemma LastDigitAssociates(a: nat, b: nat, c: nat, ab: nat, bc: nat, l: nat, r: nat)
    requires ab % 2 == (a % 2 + b % 2) % 2 && bc % 2 == (b % 2 + c % 2) % 2
    requires l % 2 == (ab % 2 + c % 2) % 2 && r % 2 == (a % 2 + bc % 2) % 2
    ensures l % 2 == r % 2
  {
    LastDigit(a, b, ab);
    LastDigit(b, c, bc);
    LastDigit(ab, c, l);
    LastDigit(a, bc, r);
  }

  lemma {:induction false} XorAssociates(a: nat, b: nat, c: nat)
    ensures BitXor(BitXor(a, b), c) == BitXor(a, BitXor(b, c))
  {
    if a != 0 && b != 0 && c != 0 {
      var ab, bc := BitXor(a, b), BitXor(b, c);
      var l, r := BitXor(ab, c), BitXor(a, bc);
      XorDigits(a, b);
      XorDigits(b, c);
      XorDigits(ab, c);
      XorDigits(a, bc);
      XorAssociates(a / 2, b / 2, c / 2);
      LastDigitAssociates(a, b, c, ab, bc, l, r);
      SameDigits(l, r);
    }
  }

  /** The exclusive-or of two words is a word. */
  lemma {:induction false} XorBelow(a: nat, b: nat, k: nat)
    requires a < Pow2(k) && b < Pow2(k)
    ensures BitXor(a, b) < Pow2(k)
  {
    if a != 0 && b != 0 {
      XorBelow(a / 2, b / 2, k - 1);
    }
  }

  lemma XorIsWord(a: nat, b: nat)
    requires a < TWO64 && b < TWO64
    ensures BitXor(a, b) < TWO64
  {
    TwoTo64();
    XorBelow(a, b, 64);
  }
}
