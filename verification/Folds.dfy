/** Sums and exclusive-ors over the records of a sequence, and how an update changes them. */
module Folds {
  import opened Word64

  function Sum<T>(s: seq<T>, f: T -> nat): nat {
    if s == [] then 0 else f(s[0]) + Sum(s[1..], f)
  }

  lemma {:induction false} SumUpdate<T>(s: seq<T>, i: nat, v: T, f: T -> nat)
    requires i < |s|
    ensures Sum(s[i := v], f) + f(s[i]) == Sum(s, f) + f(v)
  {
    if i == 0 {
      assert s[i := v][1..] == s[1..];
    } else {
      assert s[i := v][1..] == s[1..][i - 1 := v];
      SumUpdate(s[1..], i - 1, v, f);
    }
  }

  lemma {:induction false} SumAtLeast<T>(s: seq<T>, i: nat, f: T -> nat)
    requires i < |s|
    ensures Sum(s, f) >= f(s[i])
  {
    if i > 0 { SumAtLeast(s[1..], i - 1, f); }
  }

  /** A sum is zero exactly when every term is. */
  lemma {:induction false} SumZero<T>(s: seq<T>, f: T -> nat)
    ensures Sum(s, f) == 0 <==> forall i :: 0 <= i < |s| ==> f(s[i]) == 0
  {
    if s != [] {
      SumZero(s[1..], f);
      if Sum(s, f) == 0 {
        forall i | 0 <= i < |s| ensures f(s[i]) == 0 {
          if i > 0 { assert s[i] == s[1..][i - 1]; }
        }
      } else if f(s[0]) == 0 {
        var i :| 0 <= i < |s[1..]| && f(s[1..][i]) != 0;
        assert f(s[i + 1]) != 0;
      }
    }
  }

  lemma {:induction false} SumConstant<T>(s: seq<T>, f: T -> nat, v: nat)
    requires forall i :: 0 <= i < |s| ==> f(s[i]) == v
    ensures Sum(s, f) == |s| * v
  {
    if s != [] { SumConstant(s[1..], f, v); }
  }

  /** If no term grows by more than `c`, the sum grows by at most `c` per term. */
  lemma {:induction false} SumGrowth<T>(s: seq<T>, t: seq<T>, f: T -> nat, c: nat)
    requires |s| == |t| && forall i :: 0 <= i < |s| ==> f(t[i]) <= f(s[i]) + c
    ensures Sum(t, f) <= Sum(s, f) + c * |s|
  {
    if s != [] { SumGrowth(s[1..], t[1..], f, c); }
  }

  /** No term shrinks and the one at `k` grows by `d`. */
  lemma {:induction false} SumGains<T>(s: seq<T>, t: seq<T>, f: T -> nat, k: nat, d: nat)
    requires |s| == |t| && k < |s| && forall i :: 0 <= i < |s| ==> f(t[i]) >= f(s[i])
    requires f(t[k]) >= f(s[k]) + d
    ensures Sum(t, f) >= Sum(s, f) + d
  {
    if k > 0 {
      SumGains(s[1..], t[1..], f, k - 1, d);
    } else {
      SumMonotone(s[1..], t[1..], f);
    }
  }

  lemma {:induction false} SumMonotone<T>(s: seq<T>, t: seq<T>, f: T -> nat)
    requires |s| == |t| && forall i :: 0 <= i < |s| ==> f(t[i]) >= f(s[i])
    ensures Sum(t, f) >= Sum(s, f)
  {
    if s != [] { SumMonotone(s[1..], t[1..], f); }
  }

  lemma {:induction false} SumSame<T>(s: seq<T>, t: seq<T>, f: T -> nat)
    requires |s| == |t| && forall i :: 0 <= i < |s| ==> f(t[i]) == f(s[i])
    ensures Sum(t, f) == Sum(s, f)
  {
    if s != [] { SumSame(s[1..], t[1..], f); }
  }

  /** Two sequences whose terms agree place by place. */
  lemma {:induction false} SumAlike<T, U>(s: seq<T>, t: seq<U>, f: T -> nat, g: U -> nat)
    requires |s| == |t| && forall i :: 0 <= i < |s| ==> f(s[i]) == g(t[i])
    ensures Sum(s, f) == Sum(t, g)
  {
    if s != [] { SumAlike(s[1..], t[1..], f, g); }
  }

  lemma {:induction false} SumSplit<T>(s: seq<T>, i: nat, f: T -> nat)
    requires i < |s|
    ensures Sum(s, f) == f(s[i]) + Sum(s[..i] + s[i + 1..], f)
  {
    if i == 0 {
      assert s[..0] + s[1..] == s[1..];
    } else {
      SumSplit(s[1..], i - 1, f);
      assert (s[..i] + s[i + 1..])[1..] == s[1..][..i - 1] + s[1..][i..];
    }
  }

  lemma MultisetSplit<T>(s: seq<T>, i: nat)
    requires i < |s|
    ensures multiset(s[..i] + s[i + 1..]) == multiset(s) - multiset{s[i]}
  {
    assert s == s[..i] + [s[i]] + s[i + 1..];
  }

  lemma PlaceOf<T>(v: T, s: seq<T>, t: seq<T>) returns (i: nat)
    requires multiset(s) == multiset(t) && v in s
    ensures i < |t| && t[i] == v
  {
    assert v in multiset(s) && v in t;
    i :| 0 <= i < |t| && t[i] == v;
  }

  lemma SameWithout<T>(s: seq<T>, t: seq<T>, i: nat, t': seq<T>)
    requires multiset(s) == multiset(t) && s != [] && i < |t| && t[i] == s[0] && t' == t[..i] + t[i + 1..]
    ensures multiset(s[1..]) == multiset(t')
  {
    MultisetSplit(s, 0);
    assert s[..0] + s[1..] == s[1..];
    MultisetSplit(t, i);
  }

  /** A sum does not depend on the order of its terms. */
  lemma {:induction false} SumOfPermutation<T>(s: seq<T>, t: seq<T>, f: T -> nat)
    requires multiset(s) == multiset(t)
    ensures Sum(s, f) == Sum(t, f)
  {
    assert |multiset(s)| == |s| && |multiset(t)| == |t|;
    if s != [] {
      var i := PlaceOf(s[0], s, t);
      var t' := t[..i] + t[i + 1..];
      SameWithout(s, t, i, t');
      SumSplit(t, i, f);
      SumOfPermutation(s[1..], t', f);
    }
  }

  lemma {:induction false} SumAppend<T>(s: seq<T>, v: T, f: T -> nat)
    ensures Sum(s + [v], f) == Sum(s, f) + f(v)
  {
    if s == [] {
      assert s + [v] == [v];
    } else {
      assert (s + [v])[1..] == s[1..] + [v];
      SumAppend(s[1..], v, f);
    }
  }

  lemma {:induction false} SumConcat<T>(s: seq<T>, t: seq<T>, f: T -> nat)
    ensures Sum(s + t, f) == Sum(s, f) + Sum(t, f)
  {
    if s == [] {
      assert s + t == t;
    } else {
      assert (s + t)[1..] == s[1..] + t;
      SumConcat(s[1..], t, f);
    }
  }

  /** `k * n`, added up. */
  function Times(k: nat, n: nat): nat { if n == 0 then 0 else Times(k, n - 1) + k }

  lemma {:induction false} TimesIs(k: nat, n: nat)
    ensures Times(k, n) == k * n
  {
    if n > 0 {
      TimesIs(k, n - 1);
      assert k * n == k * (n - 1) + k;
    }
  }

  /** `f(0) + ... + f(n - 1)` */
  function SumTo(n: nat, f: nat -> nat): nat {
    if n == 0 then 0 else SumTo(n - 1, f) + f(n - 1)
  }

  lemma {:induction false} SumToZero(n: nat, f: nat -> nat)
    requires forall i: nat :: i < n ==> f(i) == 0
    ensures SumTo(n, f) == 0
  {
    if n > 0 { SumToZero(n - 1, f); }
  }

  lemma {:induction false} SumToSame(n: nat, f: nat -> nat, g: nat -> nat)
    requires forall i: nat :: i < n ==> f(i) == g(i)
    ensures SumTo(n, f) == SumTo(n, g)
  {
    if n > 0 { SumToSame(n - 1, f, g); }
  }

  lemma {:induction false} SumToPlus(n: nat, f: nat -> nat, g: nat -> nat, h: nat -> nat)
    requires forall i: nat :: i < n ==> h(i) == f(i) + g(i)
    ensures SumTo(n, h) == SumTo(n, f) + SumTo(n, g)
  {
    if n > 0 { SumToPlus(n - 1, f, g, h); }
  }

  /** Only the term at `k` differs from zero. */
  lemma {:induction false} SumToOne(n: nat, k: nat, f: nat -> nat)
    requires k < n && forall i: nat :: i < n && i != k ==> f(i) == 0
    ensures SumTo(n, f) == f(k)
  {
    if k == n - 1 { SumToZero(n - 1, f); } else { SumToOne(n - 1, k, f); }
  }

  /** Only the term at `k` grows, by `d`. */
  lemma {:induction false} SumToRaised(n: nat, k: nat, d: nat, f: nat -> nat, g: nat -> nat)
    requires k < n && g(k) == f(k) + d && forall i: nat :: i < n && i != k ==> g(i) == f(i)
    ensures SumTo(n, g) == SumTo(n, f) + d
  {
    if k == n - 1 { SumToSame(n - 1, f, g); } else { SumToRaised(n - 1, k, d, f, g); }
  }

  /** A sum over a sequence, place by place. */
  lemma {:induction false} SumByPlace<T>(s: seq<T>, n: nat, f: T -> nat, g: nat -> nat)
    requires n <= |s| && forall i: nat :: i < n ==> g(i) == f(s[i])
    ensures Sum(s[..n], f) == SumTo(n, g)
  {
    if n > 0 {
      SumByPlace(s, n - 1, f, g);
      assert s[..n] == s[..n - 1] + [s[n - 1]];
      SumAppend(s[..n - 1], s[n - 1], f);
    }
  }

  ghost function Ones(n: nat, f: nat -> nat): set<nat> { set i: nat | i < n && f(i) == 1 }

  lemma NextOne(n: nat, f: nat -> nat)
    requires n > 0
    ensures |Ones(n, f)| == |Ones(n - 1, f)| + if f(n - 1) == 1 then 1 else 0
  {
    var before := Ones(n - 1, f);
    if f(n - 1) == 1 {
      assert Ones(n, f) == before + {n - 1};
    } else {
      assert Ones(n, f) == before;
    }
  }

  /** A sum of zeros and ones counts the ones. */
  lemma {:induction false} SumToCounts(n: nat, f: nat -> nat)
    requires forall i: nat :: i < n ==> f(i) <= 1
    ensures SumTo(n, f) == |Ones(n, f)|
  {
    if n > 0 {
      SumToCounts(n - 1, f);
      NextOne(n, f);
    }
  }

  function Xor<T>(s: seq<T>, f: T -> nat): nat {
    if s == [] then 0 else BitXor(f(s[0]), Xor(s[1..], f))
  }

  /** Taking `a` out of `a ^ x` and putting `b` in. */
  lemma XorReplace(a: nat, b: nat, x: nat)
    ensures BitXor(b, x) == BitXor(BitXor(a, x), BitXor(a, b))
  {
    XorCommutes(BitXor(a, x), BitXor(a, b));
    XorCommutes(a, b);
    XorAssociates(b, a, BitXor(a, x));
    XorAssociates(a, a, x);
    XorCancels(a);
  }

  lemma {:induction false} XorUpdate<T>(s: seq<T>, i: nat, v: T, f: T -> nat)
    requires i < |s|
    ensures Xor(s[i := v], f) == BitXor(Xor(s, f), BitXor(f(s[i]), f(v)))
  {
    if i == 0 {
      assert s[i := v][1..] == s[1..];
      XorReplace(f(s[0]), f(v), Xor(s[1..], f));
    } else {
      assert s[i := v][1..] == s[1..][i - 1 := v];
      XorUpdate(s[1..], i - 1, v, f);
      XorAssociates(f(s[0]), Xor(s[1..], f), BitXor(f(s[i]), f(v)));
    }
  }

  lemma {:induction false} XorAppend<T>(s: seq<T>, v: T, f: T -> nat)
    ensures Xor(s + [v], f) == BitXor(Xor(s, f), f(v))
  {
    if s == [] {
      assert s + [v] == [v];
    } else {
      assert (s + [v])[1..] == s[1..] + [v];
      XorAppend(s[1..], v, f);
      XorAssociates(f(s[0]), Xor(s[1..], f), f(v));
    }
  }

  lemma {:induction false} XorSame<T>(s: seq<T>, t: seq<T>, f: T -> nat)
    requires |s| == |t| && forall i :: 0 <= i < |s| ==> f(t[i]) == f(s[i])
    ensures Xor(t, f) == Xor(s, f)
  {
    if s != [] { XorSame(s[1..], t[1..], f); }
  }
}
