/** What the blocking queue promises over whole runs. */
module QueueTheorems {
  import opened Word64
  import opened Folds
  import opened QueueProtocol
  import opened QueueSafety
  import opened QueueTermination

  /** In any run, pops come out in push order, each producer's items in its own order, none lost or repeated. */
  lemma FirstInFirstOut(cfg: Config, states: seq<State>, actions: seq<Action>, i: nat)
    requires ValidConfig(cfg) && IsRun(cfg, states, actions) && i < |states|
    ensures var s := states[i];
      && s.pushed == s.popped + s.q.items
      && |s.q.items| <= cfg.capacity
      && forall j :: 0 <= j < |s.pushed| ==>
           s.pushed[j].producer < cfg.producers && s.pushed[j].index == CountBy(s.pushed[..j], s.pushed[j].producer)
  {
    RunInv(cfg, states, actions, i);
  }

  ghost predicate IsLongest(states: seq<State>, i: nat, longest: nat)
    requires i < |states|
  {
    && (forall j :: 0 <= j <= i ==> |states[j].q.items| <= longest)
    && (exists j :: 0 <= j <= i && |states[j].q.items| == longest)
  }

  lemma LongestGrows(states: seq<State>, i: nat, longest: nat)
    requires i + 1 < |states| && IsLongest(states, i, longest)
    ensures var n := |states[i + 1].q.items|; IsLongest(states, i + 1, if n > longest then n else longest)
  {
    var n := |states[i + 1].q.items|;
    if n <= longest {
      var j :| 0 <= j <= i && |states[j].q.items| == longest;
      assert 0 <= j <= i + 1 && |states[j].q.items| == longest;
    } else {
      assert 0 <= i + 1 <= i + 1 && |states[i + 1].q.items| == n;
    }
  }

  /** `max_observed_count` is the largest length the queue has had so far. */
  lemma {:induction false} MaxObservedIsExact(cfg: Config, states: seq<State>, actions: seq<Action>, i: nat)
    requires ValidConfig(cfg) && IsRun(cfg, states, actions) && i < |states|
    ensures IsLongest(states, i, states[i].q.maxObserved)
  {
    if i == 0 {
      assert |states[0].q.items| == states[0].q.maxObserved;
    } else {
      MaxObservedIsExact(cfg, states, actions, i - 1);
      MaxStep(cfg, states[i - 1], actions[i - 1]);
      LongestGrows(states, i - 1, states[i - 1].q.maxObserved);
    }
  }

  lemma MaxStep(cfg: Config, s: State, a: Action)
    requires Enabled(s, a) && |s.q.items| <= s.q.maxObserved
    ensures var q' := Apply(cfg, s, a).q;
      q'.maxObserved == if |q'.items| > s.q.maxObserved then |q'.items| else s.q.maxObserved
  {
  }

  lemma AllInserted(cfg: Config, ps: seq<Producer>)
    requires forall p :: 0 <= p < |ps| ==> Inserted(ps[p]) == cfg.items
    ensures Sum(ps, Inserted) == |ps| * cfg.items
  {
    SumConstant(ps, Inserted, cfg.items);
  }

  /** `queue_pop_blocking` returns false only after all items were pushed and popped. */
  lemma GivesUpOnlyWhenDrained(cfg: Config, states: seq<State>, actions: seq<Action>, i: nat, c: nat)
    requires ValidConfig(cfg) && IsRun(cfg, states, actions) && i < |states|
    requires c < |states[i].cs| && (states[i].cs[c].pc == CExit || states[i].cs[c].pc == CDone)
    ensures var s := states[i];
      && s.q.items == [] && s.popped == s.pushed && |s.popped| == cfg.producers * cfg.items
      && forall p :: 0 <= p < |s.ps| ==> FinishingP(s.ps[p].pc)
  {
    RunInv(cfg, states, actions, i);
    var s := states[i];
    SumZero(s.ps, Unfinished);
    AllInserted(cfg, s.ps);
  }

  // ---------- The end of a run ----------

  /** No lost wakeup: in every state of every run all threads have returned, or one that is awake can step. */
  lemma NeverStuck(cfg: Config, states: seq<State>, actions: seq<Action>, i: nat)
    requires ValidConfig(cfg) && IsRun(cfg, states, actions) && i < |states|
    ensures AllDone(states[i]) || CanStep(states[i])
  {
    RunInv(cfg, states, actions, i);
    if !CanStep(states[i]) { NoDeadlock(cfg, states[i]); }
  }

  function ProducedBy(p: Producer): nat { p.produced }
  function ConsumedBy(c: Consumer): nat { c.consumed }
  function ChecksumP(p: Producer): nat { p.checksum }
  function ChecksumC(c: Consumer): nat { c.checksum }

  /** The totals `run_once` reports once every thread has been joined. */
  lemma FinishedTotals(cfg: Config, s: State)
    requires ValidConfig(cfg) && Inv(cfg, s) && AllDone(s)
    ensures s.popped == s.pushed && |s.pushed| == cfg.producers * cfg.items
    ensures Sum(s.ps, ProducedBy) == cfg.producers * cfg.items == Sum(s.cs, ConsumedBy)
    ensures BitXor(Xor(s.ps, ChecksumP), Xor(s.cs, ChecksumC)) == 0
  {
    assert s.cs[0].pc == CDone;
    SumZero(s.ps, Unfinished);
    AllInserted(cfg, s.ps);
    SumTerms(s.ps, Inserted, ProducedBy);
    SumTerms(s.cs, Taken, ConsumedBy);
    XorTerms(s.ps, HeldP, ChecksumP);
    XorTerms(s.cs, HeldC, ChecksumC);
    XorCancels(Xor(s.pushed, Value));
  }

  lemma {:induction false} SumTerms<T>(s: seq<T>, f: T -> nat, g: T -> nat)
    requires forall i :: 0 <= i < |s| ==> f(s[i]) == g(s[i])
    ensures Sum(s, f) == Sum(s, g)
  {
    if s != [] { SumTerms(s[1..], f, g); }
  }

  lemma {:induction false} XorTerms<T>(s: seq<T>, f: T -> nat, g: T -> nat)
    requires forall i :: 0 <= i < |s| ==> f(s[i]) == g(s[i])
    ensures Xor(s, f) == Xor(s, g)
  {
    if s != [] { XorTerms(s[1..], f, g); }
  }

  /**
   A run that only a spurious wakeup could prolong has delivered everything. With the bound on
   the length of runs: every schedule ends with all threads returned, every pushed item popped
   exactly once, both totals complete, and a reported checksum of zero.
   */
  lemma MaximalRunsDeliver(cfg: Config, states: seq<State>, actions: seq<Action>)
    requires ValidConfig(cfg) && IsRun(cfg, states, actions) && !CanStep(states[|actions|])
    ensures var s := states[|actions|];
      && AllDone(s)
      && multiset(s.popped) == multiset(s.pushed) && |s.popped| == cfg.producers * cfg.items
      && Sum(s.ps, ProducedBy) == Sum(s.cs, ConsumedBy) == cfg.producers * cfg.items
      && BitXor(Xor(s.ps, ChecksumP), Xor(s.cs, ChecksumC)) == 0
  {
    var s := states[|actions|];
    RunInv(cfg, states, actions, |actions|);
    NoDeadlock(cfg, s);
    FinishedTotals(cfg, s);
  }

  lemma ExtendRun(cfg: Config, states: seq<State>, actions: seq<Action>, a: Action, next: State)
    requires IsRun(cfg, states, actions) && Enabled(states[|actions|], a)
    requires next == Apply(cfg, states[|actions|], a)
    ensures IsRun(cfg, states + [next], actions + [a])
  {
  }

  lemma SpuriousAfter(actions: seq<Action>, a: Action)
    ensures SpuriousIn(actions + [a]) == SpuriousIn(actions) + (if IsSpurious(a) then 1 else 0)
  {
    assert (actions + [a])[..|actions|] == actions;
  }

  /**
   Whatever has happened so far and however many spurious wakeups there were: without any more of
   them the run goes on to an end, and there everything has been delivered.
   */
  lemma {:induction false} EveryRunCompletes(cfg: Config, states: seq<State>, actions: seq<Action>)
    returns (states': seq<State>, actions': seq<Action>)
    requires ValidConfig(cfg) && IsRun(cfg, states, actions)
    ensures IsRun(cfg, states', actions') && states <= states' && actions <= actions'
    ensures SpuriousIn(actions') == SpuriousIn(actions)
    ensures var s := states'[|actions'|];
      && !CanStep(s) && AllDone(s)
      && multiset(s.popped) == multiset(s.pushed) && |s.popped| == cfg.producers * cfg.items
      && Sum(s.ps, ProducedBy) == Sum(s.cs, ConsumedBy) == cfg.producers * cfg.items
      && BitXor(Xor(s.ps, ChecksumP), Xor(s.cs, ChecksumC)) == 0
    decreases Bound(cfg) + 4 * SpuriousIn(actions) - |actions|
  {
    var s := states[|actions|];
    if a :| Enabled(s, a) && !IsSpurious(a) {
      var next := Apply(cfg, s, a);
      ExtendRun(cfg, states, actions, a, next);
      SpuriousAfter(actions, a);
      RunsAreBounded(cfg, states + [next], actions + [a]);
      states', actions' := EveryRunCompletes(cfg, states + [next], actions + [a]);
    } else {
      states', actions' := states, actions;
      MaximalRunsDeliver(cfg, states, actions);
    }
  }

  // ---------- The summary loop ----------

  /** The loops at the end of `run_once`. */
  method Totals(ps: seq<Producer>, cs: seq<Consumer>) returns (produced: nat, consumed: nat, checksum: nat)
    ensures produced == Wrap(Sum(ps, ProducedBy)) && consumed == Wrap(Sum(cs, ConsumedBy))
    ensures checksum == BitXor(Xor(ps, ChecksumP), Xor(cs, ChecksumC))
  {
    produced, consumed, checksum := 0, 0, 0;
    for i := 0 to |ps|
      invariant produced == Wrap(Sum(ps[..i], ProducedBy)) && checksum == Xor(ps[..i], ChecksumP)
    {
      assert ps[..i + 1] == ps[..i] + [ps[i]];
      SumAppend(ps[..i], ps[i], ProducedBy);
      XorAppend(ps[..i], ps[i], ChecksumP);
      ResidueAdd(Sum(ps[..i], ProducedBy), ps[i].produced, TWO64);
      produced := Wrap(produced + ps[i].produced);
      checksum := BitXor(checksum, ps[i].checksum);
    }
    assert ps[..|ps|] == ps;
    for i := 0 to |cs|
      invariant consumed == Wrap(Sum(cs[..i], ConsumedBy))
      invariant checksum == BitXor(Xor(ps, ChecksumP), Xor(cs[..i], ChecksumC))
    {
      assert cs[..i + 1] == cs[..i] + [cs[i]];
      SumAppend(cs[..i], cs[i], ConsumedBy);
      XorAppend(cs[..i], cs[i], ChecksumC);
      XorAssociates(Xor(ps, ChecksumP), Xor(cs[..i], ChecksumC), cs[i].checksum);
      ResidueAdd(Sum(cs[..i], ConsumedBy), cs[i].consumed, TWO64);
      consumed := Wrap(consumed + cs[i].consumed);
      checksum := BitXor(checksum, cs[i].checksum);
    }
    assert cs[..|cs|] == cs;
  }
}
