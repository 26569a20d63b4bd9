/**
 * The TLB lab's pointer ring: the start of each page holds the address of the next page to visit,
 * and the measured loop does nothing but follow those addresses.
 */
module PageRing {
  import opened Word64
  import opened FisherYates
  import opened Generator
  import opened Wrappers

  /** The mapped buffer; `links[c]` is the pointer-sized word at the start of page `c`. */
  datatype Memory = Memory(base: nat, pageSize: nat, links: seq<nat>)

  function Address(base: nat, pageSize: nat, page: nat): nat {
    base + page * pageSize
  }

  function PageAddress(m: Memory, page: nat): nat {
    Address(m.base, m.pageSize, page)
  }

  /** A load through `p`. Anything but the start of a page of the buffer is outside the model: `None`. */
  function Load(m: Memory, p: nat): Option<nat> {
    if m.pageSize > 0 && m.base <= p && (p - m.base) % m.pageSize == 0 && (p - m.base) / m.pageSize < |m.links|
    then Some(m.links[(p - m.base) / m.pageSize])
    else None
  }

  /** Where `steps` loads, each through the word the one before returned, lead from `p`. */
  function Walk(m: Memory, p: nat, steps: nat): Option<nat> {
    if steps == 0 then Some(p)
    else
      var q := Walk(m, p, steps - 1);
      if q.None? then None else Load(m, q.value)
  }

  function Identity(n: nat): (s: seq<nat>)
    ensures |s| == n
  {
    if n == 0 then [] else Identity(n - 1) + [n - 1]
  }

  /** An order in which to visit pages 0 to n - 1, each once. */
  ghost predicate IsOrder(order: seq<nat>, n: nat) {
    multiset(order) == multiset(Identity(n))
  }

  lemma {:induction false} IdentityCounts(n: nat, c: nat)
    ensures multiset(Identity(n))[c] == if c < n then 1 else 0
  {
    if n > 0 { IdentityCounts(n - 1, c); }
  }

  /** A place holding `c` accounts for an occurrence of `c`, two places for two. */
  lemma OccursTwice(s: seq<nat>, i: nat, j: nat)
    requires i < j < |s| && s[i] == s[j]
    ensures multiset(s)[s[i]] >= 2
  {
    assert s == s[..j] + s[j..];
    assert s[i] in s[..j] && s[j..][0] == s[i] && s[i] in s[j..];
    assert s[i] in multiset(s[..j]) && s[i] in multiset(s[j..]);
  }

  lemma OrderElement(order: seq<nat>, n: nat, i: nat)
    requires IsOrder(order, n) && i < |order|
    ensures order[i] < n
  {
    assert order[i] in multiset(order);
    IdentityCounts(n, order[i]);
  }

  /** Every page has exactly one place in the order. */
  lemma OrderFacts(order: seq<nat>, n: nat)
    requires IsOrder(order, n)
    ensures |order| == n
    ensures forall i :: 0 <= i < n ==> order[i] < n
    ensures Distinct(order)
    ensures forall c :: 0 <= c < n ==> c in order
  {
    assert |multiset(order)| == |order| && |multiset(Identity(n))| == n;
    forall i | 0 <= i < n ensures order[i] < n {
      OrderElement(order, n, i);
    }
    forall i, j | 0 <= i < j < |order| ensures order[i] != order[j] {
      if order[i] == order[j] {
        OccursTwice(order, i, j);
        IdentityCounts(n, order[i]);
      }
    }
    forall c | 0 <= c < n ensures c in order {
      IdentityCounts(n, c);
      assert c in multiset(order);
    }
  }

  /** Each page in the order holds the address of the one after it, the last that of the first. */
  ghost predicate Linked(m: Memory, order: seq<nat>) {
    forall i | 0 <= i < |order| ::
      order[i] < |m.links| && m.links[order[i]] == PageAddress(m, order[(i + 1) % |order|])
  }

  lemma NextPlace(k: nat, n: nat)
    requires n > 0
    ensures (k + 1) % n == (k % n + 1) % n
    ensures (k + 1) % n == if k % n + 1 == n then 0 else k % n + 1
  {
    var q, r := k / n, k % n;
    assert k == n * q + r;
    if r + 1 == n {
      assert n * (q + 1) == n * q + n;
      ModUnique(k + 1, n, q + 1, 0);
      ModUnique(r + 1, n, 1, 0);
    } else {
      ModUnique(k + 1, n, q, r + 1);
      ModUnique(r + 1, n, 0, r + 1);
    }
  }

  lemma LoadPage(m: Memory, page: nat)
    requires m.pageSize > 0 && page < |m.links|
    ensures Load(m, PageAddress(m, page)) == Some(m.links[page])
  {
    ModUnique(page * m.pageSize, m.pageSize, page, 0);
  }

  lemma AddressInjective(m: Memory, a: nat, b: nat)
    requires m.pageSize > 0
    ensures PageAddress(m, a) == PageAddress(m, b) <==> a == b
  {
    ModUnique(a * m.pageSize, m.pageSize, a, 0);
    ModUnique(b * m.pageSize, m.pageSize, b, 0);
  }

  /** Following the links is counting round the order: the walk never leaves the ring. */
  lemma {:induction false} WalkRound(m: Memory, order: seq<nat>, start: nat, steps: nat)
    requires m.pageSize > 0 && Linked(m, order) && start < |order|
    ensures Walk(m, PageAddress(m, order[start]), steps)
         == Some(PageAddress(m, order[(start + steps) % |order|]))
  {
    if steps == 0 {
      ModUnique(start, |order|, 0, start);
    } else {
      WalkRound(m, order, start, steps - 1);
      var i := (start + steps - 1) % |order|;
      NextPlace(start + steps - 1, |order|);
      LoadPage(m, order[i]);
    }
  }

  /** The links form one cycle: from its first page the walk is on page `c` at one step in every `n`. */
  lemma SingleCycle(m: Memory, order: seq<nat>, n: nat, c: nat) returns (k: nat)
    requires m.pageSize > 0 && IsOrder(order, n) && Linked(m, order) && c < n
    ensures k < n
    ensures forall t: nat ::
      Walk(m, PageAddress(m, order[0]), t) == Some(PageAddress(m, c)) <==> t % n == k
  {
    OrderFacts(order, n);
    assert c in order;
    k :| 0 <= k < |order| && order[k] == c;
    forall t: nat
      ensures Walk(m, PageAddress(m, order[0]), t) == Some(PageAddress(m, c)) <==> t % n == k
    {
      WalkRound(m, order, 0, t);
      AddressInjective(m, order[t % n], c);
    }
  }

  /** Two walks from the same page of the ring end together exactly when they differ by whole rounds. */
  lemma ReturnsEveryRound(m: Memory, order: seq<nat>, n: nat, start: nat, s: nat, t: nat)
    requires m.pageSize > 0 && IsOrder(order, n) && Linked(m, order) && start < n
    ensures |order| == n
    ensures Walk(m, PageAddress(m, order[start]), s) == Walk(m, PageAddress(m, order[start]), t)
       <==> (start + s) % n == (start + t) % n
  {
    OrderFacts(order, n);
    WalkRound(m, order, start, s);
    WalkRound(m, order, start, t);
    AddressInjective(m, order[(start + s) % n], order[(start + t) % n]);
  }

  /** The write that keeps the chase from being optimised away: the low bit of the byte at page `c`. */
  function Flipped(m: Memory, c: nat): Memory
    requires c < |m.links|
  {
    m.(links := m.links[c := BitXor(m.links[c], 1)])
  }

  /** Nothing else changes: an even word goes up by one and an odd word down. */
  lemma FlipsLowBit(m: Memory, c: nat, page: nat)
    requires c < |m.links| && page < |m.links|
    ensures Flipped(m, c).base == m.base && Flipped(m, c).pageSize == m.pageSize && |Flipped(m, c).links| == |m.links|
    ensures Flipped(m, c).links[page] == if page != c then m.links[page]
      else if m.links[c] % 2 == 0 then m.links[c] + 1 else m.links[c] - 1
  {
    XorDigits(m.links[c], 1);
    XorZeroIsSame(m.links[c] / 2);
  }

  lemma XorZeroIsSame(a: nat)
    ensures BitXor(a, 0) == a
  {
  }

  lemma FlipParity(a: nat)
    ensures BitXor(a, 1) % 2 != a % 2
  {
    XorDigits(a, 1);
  }

  lemma EvenMultiple(page: nat, half: nat)
    ensures (page * (2 * half)) % 2 == 0
  {
    assert page * (2 * half) == 2 * (page * half);
  }

  /** With even addresses, no page starts at an odd one. */
  lemma OddFaults(m: Memory, p: nat)
    requires m.pageSize > 0 && m.pageSize % 2 == 0 && m.base % 2 == 0 && p % 2 == 1
    ensures Load(m, p) == None
  {
    if m.base <= p && (p - m.base) % m.pageSize == 0 {
      var q := (p - m.base) / m.pageSize;
      assert p - m.base == q * m.pageSize;
      EvenMultiple(q, m.pageSize / 2);
      assert false;
    }
  }

  lemma LinksAreEven(m: Memory, order: seq<nat>, r: nat)
    requires m.pageSize % 2 == 0 && m.base % 2 == 0 && Linked(m, order) && r < |order|
    ensures order[r] < |m.links| && m.links[order[r]] % 2 == 0
  {
    EvenMultiple(order[(r + 1) % |order|], m.pageSize / 2);
  }

  lemma SecondLoadFaults(m: Memory, p: nat, q: nat)
    requires Load(m, p) == Some(q) && Load(m, q) == None
    ensures Walk(m, p, 2) == None
  {
    assert Walk(m, p, 0) == Some(p);
    assert Walk(m, p, 1) == Some(q);
  }

  /**
   * The flip destroys the ring it was made in: whatever the order and wherever the chase stopped,
   * going on would load through an address that starts no page, within one round.
   */
  lemma FlipBreaksRing(m: Memory, order: seq<nat>, r: nat)
    requires m.pageSize > 0 && m.pageSize % 2 == 0 && m.base % 2 == 0
    requires Linked(m, order) && r < |order|
    ensures Walk(Flipped(m, order[r]), PageAddress(m, order[r]), 2) == None
    ensures !Linked(Flipped(m, order[r]), order)
  {
    var f := Flipped(m, order[r]);
    var next := m.links[order[r]];
    LinksAreEven(m, order, r);
    FlipParity(next);
    LoadPage(f, order[r]);
    OddFaults(f, BitXor(next, 1));
    SecondLoadFaults(f, PageAddress(m, order[r]), BitXor(next, 1));
    Unlinked(f, order, r);
  }

  lemma Unlinked(m: Memory, order: seq<nat>, r: nat)
    requires r < |order| && order[r] < |m.links|
    requires m.links[order[r]] != PageAddress(m, order[(r + 1) % |order|])
    ensures !Linked(m, order)
  {
  }

  function RandomOrder(n: nat, seed: word): seq<nat> {
    Arrange(Identity(n), LcgChoices(StartState(seed), n))
  }

  lemma {:induction false} IdentityIs(n: nat, i: nat)
    requires i < n
    ensures Identity(n)[i] == i
  {
    if i < n - 1 { IdentityIs(n - 1, i); }
  }

  /**
   * The shuffled order is what exchanging places n - 1 down to 1 makes of the numbers in turn, place `i`
   * with the place the state after `n - i` calls gives modulo `i + 1`.
   */
  lemma RandomOrderIs(n: nat, seed: word) returns (js: seq<nat>)
    ensures |js| == n && Choices(js) && RandomOrder(n, seed) == Exchanged(Identity(n), js)
    ensures forall i: nat :: 0 < i < n ==>
      js[i] == After(if seed != 0 then seed else 88172645463393265, n - i) % (i + 1)
  {
    var x: word := StartState(seed);
    js := LcgChoices(x, n);
    ArrangeIs(Identity(n), js);
    forall i: nat | 0 < i < n ensures js[i] == After(x, n - i) % (i + 1) { ChoicesAre(x, n, i); }
  }

  /** Two pages from seed 1: the generator's first state is even, so the two exchange places. */
  lemma SmallestShuffle()
    ensures RandomOrder(2, 1) == [1, 0]
  {
    FirstState();
    assert Identity(2) == [0, 1];
    assert LcgChoices(1, 2) == [0, 0];
    assert Rest([0, 1], 0) == [1];
    assert Arrange([1], [0]) == [1];
  }

  /** Whatever the seed, the shuffled indices are an order of all the pages. */
  lemma RandomOrderIsOrder(n: nat, seed: word)
    ensures IsOrder(RandomOrder(n, seed), n)
  {
    ArrangeIsPermutation(Identity(n), LcgChoices(StartState(seed), n));
  }

  lemma LastChoice(js: seq<nat>, y: word, i: nat)
    requires i > 0 && js == LcgChoices(y, i) + [y % (i + 1)]
    ensures Front(js) == LcgChoices(y, i) && js[i] == y % (i + 1)
  {
  }

  method Shuffle(a: array<nat>, n: nat, seed: word)
    requires 1 <= n <= a.Length
    modifies a
    ensures a[..n] == Arrange(old(a[..n]), LcgChoices(StartState(seed), n))
    ensures a[n..] == old(a[n..])
  {
    var x: word := StartState(seed);
    var i := n - 1;
    ghost var goal := Arrange(a[..n], LcgChoices(x, n));
    ghost var settled := [];
    ghost var beyond := a[n..];
    while i > 0
      invariant i < n && a[i + 1..] == settled + beyond
      invariant Arrange(a[..i + 1], LcgChoices(x, i + 1)) + settled == goal
    {
      ghost var js := LcgChoices(x, i + 1);
      x := Lcg(x);
      var j := x % (i + 1);
      LastChoice(js, x, i);
      Exchange(a, i, j, js);
      Settle(Arrange(a[..i], Front(js)), a[i], settled, beyond);
      settled := [a[i]] + settled;
      i := i - 1;
    }
    assert a[..] == a[..1] + a[1..];
    assert |settled| == n - 1;
  }

  function OrderFor(n: nat, randomize: bool, now: word): (order: seq<nat>)
    ensures |order| == n
  {
    if randomize && n > 1 then RandomOrder(n, Mixed(now, n)) else Identity(n)
  }

  lemma PlainOrder(n: nat)
    ensures forall i :: 0 <= i < n ==> Identity(n)[i] == i
  {
    forall i | 0 <= i < n ensures Identity(n)[i] == i { IdentityIs(n, i); }
  }

  lemma OrderForIsOrder(n: nat, randomize: bool, now: word)
    ensures IsOrder(OrderFor(n, randomize, now), n)
  {
    if randomize && n > 1 { RandomOrderIsOrder(n, Mixed(now, n)); }
  }

  /** The lab's buffer and its array of page numbers. */
  class TlbLab {
    const base: nat
    const pageSize: nat
    const pages: array<nat>
    const links: array<nat>

    predicate Valid() {
      pageSize > 0 && pages.Length == links.Length && pages != links
    }

    function Contents(): Memory
      reads links
    {
      Memory(base, pageSize, links[..])
    }

    constructor (base: nat, pageSize: nat, maxPages: nat)
      requires pageSize >= 8 && maxPages > 0
      ensures Valid() && fresh(pages) && fresh(links)
      ensures this.base == base && this.pageSize == pageSize && links.Length == maxPages
      ensures forall c :: 0 <= c < maxPages ==> pages[c] == c && links[c] == c % 256
    {
      this.base := base;
      this.pageSize := pageSize;
      pages := new nat[maxPages](i => i);
      links := new nat[maxPages](i => i % 256);
    }

    method Refill(n: nat)
      requires Valid() && n <= pages.Length
      modifies pages
      ensures pages[..n] == Identity(n)
      ensures forall c :: n <= c < pages.Length ==> pages[c] == old(pages[c])
    {
      var i := 0;
      while i < n
        invariant i <= n && pages[..i] == Identity(i)
        invariant forall c :: n <= c < pages.Length ==> pages[c] == old(pages[c])
      {
        pages[i] := i;
        assert pages[..i + 1] == pages[..i] + [i];
        i := i + 1;
      }
    }

    /** Refill the first `n` places and, where asked to, shuffle them. */
    method Reorder(n: nat, randomize: bool, now: word)
      requires Valid() && 1 <= n <= pages.Length
      modifies pages
      ensures pages[..n] == OrderFor(n, randomize, now)
      ensures !randomize ==> forall i :: 0 <= i < n ==> pages[i] == i
      ensures randomize && n > 1 ==>
        pages[..n] == RandomOrder(n, BitXor(now, Wrap(n * 0x9e37_79b9_7f4a_7c15)))
      ensures pages[n..] == old(pages[n..])
    {
      Refill(n);
      PlainOrder(n);
      if randomize && n > 1 {
        Shuffle(pages, n, Mixed(now, n));
      }
    }

    /** Link the pages in the order given, whatever the pages held before. */
    method Link(n: nat)
      requires Valid() && 1 <= n <= pages.Length && IsOrder(pages[..n], n)
      modifies links
      ensures Linked(Contents(), pages[..n])
      ensures forall c :: n <= c < links.Length ==> links[c] == old(links[c])
    {
      ghost var order := pages[..n];
      OrderFacts(order, n);
      var i := 0;
      while i < n
        invariant i <= n
        invariant forall k :: 0 <= k < i ==> links[order[k]] == PageAddress(Contents(), order[(k + 1) % n])
        invariant forall c :: n <= c < links.Length ==> links[c] == old(links[c])
      {
        var cur := pages[i];
        var nxt := pages[(i + 1) % n];
        links[cur] := Address(base, pageSize, nxt);
        i := i + 1;
      }
    }

    /** `steps` loads, each through the word the last one returned. */
    method Chase(from: nat, steps: nat, ghost order: seq<nat>, ghost start: nat) returns (p: nat)
      requires Valid() && Linked(Contents(), order) && start < |order|
      requires from == PageAddress(Contents(), order[start])
      ensures Walk(Contents(), from, steps) == Some(p)
      ensures p == PageAddress(Contents(), order[(start + steps) % |order|])
    {
      p := from;
      var i := 0;
      WalkRound(Contents(), order, start, 0);
      while i < steps
        invariant i <= steps && p == PageAddress(Contents(), order[(start + i) % |order|])
        invariant Walk(Contents(), from, i) == Some(p)
      {
        ghost var page := order[(start + i) % |order|];
        LoadPage(Contents(), page);
        NextPlace(start + i, |order|);
        ModUnique(page * pageSize, pageSize, page, 0);
        p := links[(p - base) / pageSize];
        i := i + 1;
      }
    }

    /** Where a chase of `steps` loads through the ring of `n` pages ends. */
    function FinalAddress(n: nat, randomize: bool, now: word, steps: nat): nat
      requires n > 0
    {
      Address(base, pageSize, FinalPage(n, randomize, now, steps))
    }

    /**
     * One size: order, link, warm up, chase, flip. `ring` is the memory that was chased and `page`
     * the page it ended on. Nothing is asked of the words the pages held before.
     */
    method Measure(n: nat, randomize: bool, now: word, warmup: nat, iters: nat)
      returns (p: nat, ghost ring: Memory, ghost page: nat)
      requires Valid() && 1 <= n <= pages.Length
      modifies pages, links
      ensures IsOrder(OrderFor(n, randomize, now), n) && Linked(ring, OrderFor(n, randomize, now))
      ensures ring.base == base && ring.pageSize == pageSize && |ring.links| == links.Length
      ensures page == FinalPage(n, randomize, now, warmup + iters) < n
      ensures p == PageAddress(ring, page) == FinalAddress(n, randomize, now, warmup + iters)
      ensures Contents() == Flipped(ring, page)
      ensures forall c :: n <= c < links.Length ==> ring.links[c] == old(links[c])
    {
      ghost var order := OrderFor(n, randomize, now);
      OrderForIsOrder(n, randomize, now);
      OrderFacts(order, n);
      Reorder(n, randomize, now);
      Link(n);
      ring := Contents();
      p := Address(base, pageSize, pages[0]);
      p := Chase(p, warmup, order, 0);
      p := Chase(p, iters, order, warmup % n);
      PlacesAdd(warmup, iters, n);
      page := order[(warmup + iters) % n];
      ModUnique(page * pageSize, pageSize, page, 0);
      var at := (p - base) / pageSize;
      links[at] := BitXor(links[at], 1);
    }


    /** Where the chase of each size ends, by the clock reading at its measurement. */
    function Finals(randomize: bool, clock: nat -> word, steps: nat): nat -> nat {
      (n: nat) => if n > 0 then FinalAddress(n, randomize, clock(n), steps) else 0
    }

    /** One size at the time it is measured. */
    method FinalOf(n: nat, randomize: bool, clock: nat -> word, warmup: nat, iters: nat) returns (p: nat)
      requires Valid() && 1 <= n <= pages.Length
      modifies pages, links
      ensures p == Finals(randomize, clock, warmup + iters)(n)
    {
      ghost var ring, page;
      p, ring, page := Measure(n, randomize, clock(n), warmup, iters);
    }

    /** Every size in turn, over the one buffer; the final addresses of the chases are returned. */
    method Run(minPages: nat, step: nat, randomize: bool, clock: nat -> word, warmup: nat, iters: nat)
      returns (finals: seq<nat>)
      requires Valid() && 1 <= minPages <= pages.Length && step > 0
      modifies pages, links
      ensures |finals| == (pages.Length - minPages) / step + 1
      ensures Recorded(finals, minPages, step, Finals(randomize, clock, warmup + iters))
      ensures !randomize ==> InTurn(finals, minPages, step, warmup + iters)
    {
      finals := Sizes(minPages, step, randomize, clock, warmup, iters, Finals(randomize, clock, warmup + iters));
      SizesFit(minPages, step, pages.Length, |finals|);
      if !randomize { PlainFinals(finals, minPages, step, clock, warmup + iters); }
    }

    /** Unshuffled, the chase goes round the pages in turn. */
    ghost predicate InTurn(finals: seq<nat>, minPages: nat, step: nat, steps: nat)
      requires minPages > 0
    {
      forall k: nat :: k < |finals| ==> finals[k] == base + pageSize * (steps % (minPages + step * k))
    }

    lemma PlainFinals(finals: seq<nat>, minPages: nat, step: nat, clock: nat -> word, steps: nat)
      requires minPages > 0 && Recorded(finals, minPages, step, Finals(false, clock, steps))
      ensures InTurn(finals, minPages, step, steps)
    {
      forall k: nat | k < |finals| ensures finals[k] == base + pageSize * (steps % (minPages + step * k)) {
        var n := SizeAt(minPages, step, k);
        SizeAtIs(minPages, step, k);
        PlainFinal(n, clock, steps);
        assert finals[k] == base + pageSize * (steps % n);
      }
    }

    lemma PlainFinal(n: nat, clock: nat -> word, steps: nat)
      requires n > 0
      ensures Finals(false, clock, steps)(n) == base + pageSize * (steps % n)
    {
      var page := FinalPage(n, false, clock(n), steps);
      PlainOrder(n);
      assert page == steps % n;
      assert FinalAddress(n, false, clock(n), steps) == Address(base, pageSize, page) == base + page * pageSize;
    }

    /** The loop over the sizes; `f` says where the chase of each ends. */
    method Sizes(minPages: nat, step: nat, randomize: bool, clock: nat -> word, warmup: nat, iters: nat,
        ghost f: nat -> nat) returns (finals: seq<nat>)
      requires Valid() && 1 <= minPages <= pages.Length && step > 0
      requires forall n :: 1 <= n <= pages.Length ==> f(n) == Finals(randomize, clock, warmup + iters)(n)
      modifies pages, links
      ensures pages.Length < SizeAt(minPages, step, |finals|) <= pages.Length + step
      ensures Recorded(finals, minPages, step, f)
    {
      var n := minPages;
      finals := [];
      while n <= pages.Length
        invariant n == SizeAt(minPages, step, |finals|) && n < pages.Length + step + 1
        invariant Recorded(finals, minPages, step, f)
        decreases pages.Length + step - n
      {
        var p := FinalOf(n, randomize, clock, warmup, iters);
        assert p == f(n);
        OneMoreRecord(finals, minPages, step, f, p);
        finals := finals + [p];
        n := n + step;
      }
    }
  }

  /** The `k`th record is what `f` says of the `k`th size. */
  predicate Recorded(finals: seq<nat>, minPages: nat, step: nat, f: nat -> nat) {
    forall k :: 0 <= k < |finals| ==> finals[k] == f(SizeAt(minPages, step, k))
  }

  lemma OneMoreRecord(finals: seq<nat>, minPages: nat, step: nat, f: nat -> nat, p: nat)
    requires Recorded(finals, minPages, step, f) && p == f(SizeAt(minPages, step, |finals|))
    ensures Recorded(finals + [p], minPages, step, f)
  {
  }

  /** The page a chase of `steps` loads from the first page of the order ends on. */
  function FinalPage(n: nat, randomize: bool, now: word, steps: nat): nat
    requires n > 0
  {
    OrderFor(n, randomize, now)[steps % n]
  }

  /** The ring size of the `k`th measurement. */
  function SizeAt(minPages: nat, step: nat, k: nat): (n: nat)
    ensures n >= minPages
  {
    if k == 0 then minPages else SizeAt(minPages, step, k - 1) + step
  }

  lemma {:induction false} SizeAtIs(minPages: nat, step: nat, k: nat)
    ensures SizeAt(minPages, step, k) == minPages + step * k
  {
    if k > 0 { SizeAtIs(minPages, step, k - 1); }
  }

  lemma SizesFit(minPages: nat, step: nat, maxPages: nat, k: nat)
    requires step > 0 && minPages <= maxPages < SizeAt(minPages, step, k) <= maxPages + step
    ensures k == (maxPages - minPages) / step + 1
  {
    SizeAtIs(minPages, step, k);
    if k > 0 {
      assert step * k == step * (k - 1) + step;
      ModUnique(maxPages - minPages, step, k - 1, maxPages - minPages - step * (k - 1));
    }
  }

  lemma {:induction false} PlacesAdd(a: nat, b: nat, n: nat)
    requires n > 0
    ensures (a % n + b) % n == (a + b) % n
  {
    var q := a / n;
    var q', r' := (a % n + b) / n, (a % n + b) % n;
    assert a + b == n * (q + q') + r';
    ModUnique(a + b, n, q + q', r');
  }

  /** A page flipped under one order is linked afresh by any order of at least as many pages. */
  lemma FlippedPageIsRelinked(m: Memory, order: seq<nat>, n: nat, r: nat, next: Memory, order': seq<nat>, n': nat)
    returns (c: nat)
    requires IsOrder(order, n) && Linked(m, order) && r < |order|
    requires IsOrder(order', n') && Linked(next, order') && n <= n'
    ensures order[r] < |next.links| && c < n' && next.links[order[r]] == PageAddress(next, c)
  {
    OrderFacts(order, n);
    OrderFacts(order', n');
    assert order[r] in order';
    var i :| 0 <= i < |order'| && order'[i] == order[r];
    c := order'[(i + 1) % |order'|];
  }
}
