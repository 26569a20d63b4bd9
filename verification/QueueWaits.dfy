/** What the queue's two wait counters count: how often their thread fell asleep, and on what. */
module QueueWaits {
  import opened QueueProtocol
  import opened QueueSafety
  import opened QueueTheorems

  /** Producer `p` falls asleep in this step. */
  predicate Blocks(s: State, s': State, p: nat) {
    p < |s.ps| == |s'.ps| && s.ps[p].pc != PAsleep && s'.ps[p].pc == PAsleep
  }

  /** Consumer `c` falls asleep in this step. */
  predicate Starves(s: State, s': State, c: nat) {
    c < |s.cs| == |s'.cs| && s.cs[c].pc != CAsleep && s'.cs[c].pc == CAsleep
  }

  function TimesBlocked(states: seq<State>, i: nat, p: nat): nat
    requires i < |states|
  {
    if i == 0 then 0 else TimesBlocked(states, i - 1, p) + if Blocks(states[i - 1], states[i], p) then 1 else 0
  }

  function TimesStarved(states: seq<State>, i: nat, c: nat): nat
    requires i < |states|
  {
    if i == 0 then 0 else TimesStarved(states, i - 1, c) + if Starves(states[i - 1], states[i], c) then 1 else 0
  }

  lemma ProducerWaitStep(cfg: Config, s: State, a: Action, p: nat)
    requires Enabled(s, a) && p < |s.ps|
    ensures var s' := Apply(cfg, s, a);
      && |s'.ps| == |s.ps|
      && s'.ps[p].fullWaits == s.ps[p].fullWaits + (if Blocks(s, s', p) then 1 else 0)
      && (Blocks(s, s', p) ==> |s.q.items| == cfg.capacity)
  {
  }

  lemma ConsumerWaitStep(cfg: Config, s: State, a: Action, c: nat)
    requires Enabled(s, a) && c < |s.cs|
    ensures var s' := Apply(cfg, s, a);
      && |s'.cs| == |s.cs|
      && s'.cs[c].emptyWaits == s.cs[c].emptyWaits + (if Starves(s, s', c) then 1 else 0)
      && (Starves(s, s', c) ==> s.q.items == [] && s.q.active > 0)
  {
  }

  /** `full_waits` is the number of times the producer fell asleep, each time on a full queue. */
  lemma {:induction false} FullWaitsAreBlocks(cfg: Config, states: seq<State>, actions: seq<Action>, i: nat, p: nat)
    requires IsRun(cfg, states, actions) && i < |states| && p < cfg.producers
    ensures |states[i].ps| == cfg.producers
    ensures states[i].ps[p].fullWaits == TimesBlocked(states, i, p)
    ensures i < |actions| && Blocks(states[i], states[i + 1], p) ==> |states[i].q.items| == cfg.capacity
  {
    if i > 0 {
      FullWaitsAreBlocks(cfg, states, actions, i - 1, p);
      ProducerWaitStep(cfg, states[i - 1], actions[i - 1], p);
    }
    if i < |actions| { ProducerWaitStep(cfg, states[i], actions[i], p); }
  }

  /** `empty_waits` is the number of times the consumer fell asleep, each time on an empty queue still in use. */
  lemma {:induction false} EmptyWaitsAreStarves(cfg: Config, states: seq<State>, actions: seq<Action>, i: nat, c: nat)
    requires IsRun(cfg, states, actions) && i < |states| && c < cfg.consumers
    ensures |states[i].cs| == cfg.consumers
    ensures states[i].cs[c].emptyWaits == TimesStarved(states, i, c)
    ensures i < |actions| && Starves(states[i], states[i + 1], c) ==>
      states[i].q.items == [] && states[i].q.active > 0
  {
    if i > 0 {
      EmptyWaitsAreStarves(cfg, states, actions, i - 1, c);
      ConsumerWaitStep(cfg, states[i - 1], actions[i - 1], c);
    }
    if i < |actions| { ConsumerWaitStep(cfg, states[i], actions[i], c); }
  }
}
