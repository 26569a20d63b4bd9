/** The shuffle both memory labs use: from the last place down, exchange with a chosen earlier place. */
module FisherYates {

  /** The choice made for each place: place `i` is exchanged with a place not after it. */
  predicate Choices(js: seq<nat>) {
    forall i :: 0 <= i < |js| ==> js[i] <= i
  }

  function Front<T>(s: seq<T>): (f: seq<T>)
    requires |s| > 0
    ensures |f| == |s| - 1
  {
    s[..|s| - 1]
  }

  /** What is left to arrange once the element at `j` has been exchanged into the last place. */
  function Rest<T>(s: seq<T>, j: nat): (r: seq<T>)
    requires j < |s|
    ensures |r| == |s| - 1
  {
    if j == |s| - 1 then Front(s) else Front(s)[j := s[|s| - 1]]
  }

  /** The arrangement of `s` the exchanges lead to. Once a place has been exchanged it is final. */
  function Arrange<T>(s: seq<T>, js: seq<nat>): (t: seq<T>)
    requires |js| == |s| && Choices(js)
    ensures |t| == |s|
    decreases |s|
  {
    if s == [] then []
    else
      var j := js[|js| - 1];
      Arrange(Rest(s, j), Front(js)) + [s[j]]
  }

  /** One exchange, of places `i` and `j`, settles place `i` and leaves the places below it to arrange. */
  lemma ExchangeStep<T>(before: seq<T>, after: seq<T>, i: nat, js: seq<nat>)
    requires i < |before| && |js| == i + 1 && Choices(js)
    requires after == before[i := before[js[i]]][js[i] := before[i]]
    ensures Arrange(before[..i + 1], js) == Arrange(after[..i], Front(js)) + [after[i]]
  {
    assert after[..i] == Rest(before[..i + 1], js[i]);
  }

  /** A settled place moves from the end of what is arranged to the front of what is settled. */
  lemma Settle<T>(arranged: seq<T>, x: T, settled: seq<T>, beyond: seq<T>)
    ensures (arranged + [x]) + settled == arranged + ([x] + settled)
    ensures [x] + (settled + beyond) == ([x] + settled) + beyond
  {
  }

  function Swapped<T>(s: seq<T>, i: nat, j: nat): (t: seq<T>)
    requires i < |s| && j < |s|
    ensures |t| == |s| && t[i] == s[j] && t[j] == s[i]
    ensures forall k :: 0 <= k < |s| && k != i && k != j ==> t[k] == s[k]
  {
    s[i := s[j]][j := s[i]]
  }

  /** The whole sequence after the exchanges, made one after the other from the last place down. */
  function Exchanged<T>(s: seq<T>, js: seq<nat>): (t: seq<T>)
    requires |js| <= |s| && Choices(js)
    ensures |t| == |s|
    decreases |js|
  {
    if js == [] then s else Exchanged(Swapped(s, |js| - 1, js[|js| - 1]), Front(js))
  }

  /** Settling one place at a time is the same as making all the exchanges in order. */
  lemma {:induction false} ArrangeIsExchanged<T>(s: seq<T>, js: seq<nat>)
    requires |js| <= |s| && Choices(js)
    ensures Exchanged(s, js) == Arrange(s[..|js|], js) + s[|js|..]
    decreases |js|
  {
    if js != [] {
      var i := |js| - 1;
      var after := Swapped(s, i, js[i]);
      ArrangeIsExchanged(after, Front(js));
      ExchangeStep(s, after, i, js);
      Reassociate(s, after, i, Arrange(after[..i], Front(js)));
    }
  }

  lemma Reassociate<T>(s: seq<T>, after: seq<T>, i: nat, arranged: seq<T>)
    requires i < |s| == |after| && forall k :: i < k < |s| ==> after[k] == s[k]
    ensures arranged + after[i..] == (arranged + [after[i]]) + s[i + 1..]
  {
    assert after[i..] == [after[i]] + s[i + 1..];
    assert arranged + ([after[i]] + s[i + 1..]) == (arranged + [after[i]]) + s[i + 1..];
  }

  lemma ArrangeIs<T>(s: seq<T>, js: seq<nat>)
    requires |js| == |s| && Choices(js)
    ensures Arrange(s, js) == Exchanged(s, js)
  {
    ArrangeIsExchanged(s, js);
    assert s[..|s|] == s && s[|s|..] == [];
  }

  /** The three assignments at the heart of both shuffles. */
  method SwapPlaces<T>(a: array<T>, i: nat, j: nat)
    requires i < a.Length && j < a.Length
    modifies a
    ensures a[..] == Swapped(old(a[..]), i, j)
  {
    var tmp := a[i];
    a[i] := a[j];
    a[j] := tmp;
  }

  method Exchange<T>(a: array<T>, i: nat, j: nat, ghost js: seq<nat>)
    requires i < a.Length && |js| == i + 1 && Choices(js) && j == js[i]
    modifies a
    ensures Arrange(old(a[..i + 1]), js) == Arrange(a[..i], Front(js)) + [a[i]]
    ensures a[i..] == [a[i]] + old(a[i + 1..])
  {
    ghost var before := a[..];
    SwapPlaces(a, i, j);
    assert before[..i + 1] == old(a[..i + 1]) && a[..][..i] == a[..i];
    ExchangeStep(before, a[..], i, js);
  }

  lemma MultisetOfFront<T>(s: seq<T>)
    requires |s| > 0
    ensures multiset(s) == multiset(Front(s)) + multiset{s[|s| - 1]}
  {
    assert s == Front(s) + [s[|s| - 1]];
  }

  lemma MultisetOfRest<T>(s: seq<T>, j: nat)
    requires j < |s|
    ensures multiset(s) == multiset(Rest(s, j)) + multiset{s[j]}
  {
    MultisetOfFront(s);
  }

  lemma {:induction false} ArrangeIsPermutation<T>(s: seq<T>, js: seq<nat>)
    requires |js| == |s| && Choices(js)
    ensures multiset(Arrange(s, js)) == multiset(s)
    decreases |s|
  {
    if s != [] {
      var j := js[|js| - 1];
      ArrangeIsPermutation(Rest(s, j), Front(js));
      MultisetOfRest(s, j);
    }
  }

  predicate Distinct<T(==)>(s: seq<T>) {
    forall i, j :: 0 <= i < j < |s| ==> s[i] != s[j]
  }

  lemma RestKeepsDistinct<T>(s: seq<T>, j: nat)
    requires j < |s| && Distinct(s)
    ensures Distinct(Rest(s, j))
  {
  }

  lemma SameFrontSameLast<T>(s: seq<T>, t: seq<T>)
    requires |s| == |t| > 0 && Front(s) == Front(t) && s[|s| - 1] == t[|t| - 1]
    ensures s == t
  {
    assert s == Front(s) + [s[|s| - 1]];
    assert t == Front(t) + [t[|t| - 1]];
  }

  lemma AppendInjective<T>(a: seq<T>, x: T, b: seq<T>, y: T)
    requires a + [x] == b + [y]
    ensures a == b && x == y
  {
    assert |a + [x]| == |a| + 1 && |b + [y]| == |b| + 1;
    assert (a + [x])[..|a|] == a && (b + [y])[..|b|] == b;
    assert (a + [x])[|a|] == x && (b + [y])[|b|] == y;
  }

  /** Different choices give different arrangements. */
  lemma {:induction false} ChoicesAreDetermined<T>(s: seq<T>, js: seq<nat>, ks: seq<nat>)
    requires |js| == |s| && |ks| == |s| && Choices(js) && Choices(ks) && Distinct(s)
    requires Arrange(s, js) == Arrange(s, ks)
    ensures js == ks
    decreases |s|
  {
    if s != [] {
      var j, k := js[|js| - 1], ks[|ks| - 1];
      AppendInjective(Arrange(Rest(s, j), Front(js)), s[j], Arrange(Rest(s, k), Front(ks)), s[k]);
      assert j == k;
      RestKeepsDistinct(s, j);
      ChoicesAreDetermined(Rest(s, j), Front(js), Front(ks));
      SameFrontSameLast(js, ks);
    }
  }

  lemma FrontAppend<T>(s: seq<T>, x: T)
    ensures Front(s + [x]) == s
  {
  }

  lemma Cancel<T>(a: multiset<T>, b: multiset<T>, x: T)
    requires a + multiset{x} == b + multiset{x}
    ensures a == b
  {
    assert a == a + multiset{x} - multiset{x};
    assert b == b + multiset{x} - multiset{x};
  }

  /** The choice that puts the right element last leaves the right elements for the rest. */
  lemma ChooseLast<T>(s: seq<T>, goal: seq<T>) returns (j: nat)
    requires multiset(goal) == multiset(s) && goal != []
    ensures |goal| == |s| && j < |s| && s[j] == goal[|goal| - 1]
    ensures multiset(Front(goal)) == multiset(Rest(s, j))
  {
    var x := goal[|goal| - 1];
    assert |multiset(goal)| == |goal| && |multiset(s)| == |s|;
    assert x in multiset(goal);
    j :| 0 <= j < |s| && s[j] == x;
    MultisetOfFront(goal);
    MultisetOfRest(s, j);
    Cancel(multiset(Front(goal)), multiset(Rest(s, j)), x);
  }

  /** Every arrangement is reached. With the previous lemma: by exactly one way of choosing. */
  lemma {:induction false} EveryArrangementIsReached<T>(s: seq<T>, goal: seq<T>) returns (js: seq<nat>)
    requires multiset(goal) == multiset(s)
    ensures |js| == |s| && Choices(js) && Arrange(s, js) == goal
    decreases |goal|
  {
    if goal == [] {
      assert |multiset(s)| == |s|;
      js := [];
    } else {
      var j := ChooseLast(s, goal);
      var rest := EveryArrangementIsReached(Rest(s, j), Front(goal));
      js := rest + [j];
      FrontAppend(rest, j);
      assert goal == Front(goal) + [s[j]];
    }
  }
}
