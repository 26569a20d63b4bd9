/** What the ring's `full_hits` counts: the tests of the producer that found the ring full. */
module RingCounts {
  import opened RingProtocol
  import opened RingSafety
  import opened RingTheorems
  import opened Word64

  /** In step `j` the producer loads a head with a whole capacity of items pushed since. */
  predicate SawFull(cfg: Config, states: seq<State>, actions: seq<Action>, j: nat)
    requires j < |actions| && j < |states|
  {
    actions[j].LoadHeadAcquire? && Pushes(states[j]) - actions[j].k == cfg.capacity
  }

  /** The number of such loads among the first `i` steps. */
  function FullLoads(cfg: Config, states: seq<State>, actions: seq<Action>, i: nat): nat
    requires i <= |actions| <= |states|
  {
    if i == 0 then 0
    else FullLoads(cfg, states, actions, i - 1) + if SawFull(cfg, states, actions, i - 1) then 1 else 0
  }

  /** The count lags by the one hit that has been seen and not yet counted. */
  ghost predicate HitsMatch(s: State, n: nat) {
    if s.p.pc == PFullHit then n > 0 && s.fullHits == Wrap(n - 1) else s.fullHits == Wrap(n)
  }

  lemma CountWraps(n: nat)
    ensures Wrap(Wrap(n) + 1) == Wrap(n + 1)
  {
    ResidueAdd(n, 1, TWO64);
  }

  lemma HitsStep(cfg: Config, s: State, a: Action, n: nat)
    requires ValidConfig(cfg) && Inv(cfg, s) && Enabled(cfg, s, a) && HitsMatch(s, n)
    ensures HitsMatch(Apply(cfg, s, a), n + if a.LoadHeadAcquire? && Pushes(s) - a.k == cfg.capacity then 1 else 0)
  {
    if a.LoadHeadAcquire? { FullTestIsExact(cfg, s, a.k); }
    if a.CountFullHit? { CountWraps(n - 1); }
  }

  lemma {:induction false} HitsSoFar(cfg: Config, states: seq<State>, actions: seq<Action>, i: nat)
    requires ValidConfig(cfg) && IsRun(cfg, states, actions) && i < |states|
    ensures HitsMatch(states[i], FullLoads(cfg, states, actions, i))
  {
    if i > 0 {
      HitsSoFar(cfg, states, actions, i - 1);
      RunInv(cfg, states, actions, i - 1);
      HitsStep(cfg, states[i - 1], actions[i - 1], FullLoads(cfg, states, actions, i - 1));
    }
  }

  /**
   * Outside the counting step itself, the field is the number of loads so far that found the ring full,
   * modulo 2^64: nothing else is counted, and no such load is missed or counted twice.
   */
  lemma FullHitsAreFullLoads(cfg: Config, states: seq<State>, actions: seq<Action>, i: nat)
    requires ValidConfig(cfg) && IsRun(cfg, states, actions) && i < |states|
    ensures states[i].p.pc != PFullHit ==> states[i].fullHits == Wrap(FullLoads(cfg, states, actions, i))
    ensures states[i].p.pc == PFullHit ==> Wrap(states[i].fullHits + 1) == Wrap(FullLoads(cfg, states, actions, i))
  {
    HitsSoFar(cfg, states, actions, i);
    if states[i].p.pc == PFullHit { CountWraps(FullLoads(cfg, states, actions, i) - 1); }
  }
}
