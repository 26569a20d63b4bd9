/** A measure that every step but a spurious wakeup lowers, and the absence of deadlock. */
module QueueTermination {
  import opened Folds
  import opened QueueProtocol
  import opened QueueSafety

  predicate AllDone(s: State) {
    && (forall p :: 0 <= p < |s.ps| ==> s.ps[p].pc == PDone)
    && (forall c :: 0 <= c < |s.cs| ==> s.cs[c].pc == CDone)
  }

  // ---------- No deadlock ----------

  ghost predicate CanStep(s: State) {
    exists a :: Enabled(s, a) && !IsSpurious(a)
  }

  lemma OwnerCanStep(s: State)
    requires LockOk(s.owner, s.ps, s.cs) && s.owner != Free
    ensures CanStep(s)
  {
    match s.owner
    case OfProducer(p) =>
      var a := StepProducer(p, Sleepers(s.cs));
      assert SignalsConsumers(s.cs, Sleepers(s.cs)) by { NoSleeperNoWake(s.cs); }
      assert Enabled(s, a) && !IsSpurious(a);
    case OfConsumer(c) =>
      var wake := set p: nat | 0 <= p < |s.ps| && s.ps[p].pc == PAsleep;
      assert wake == {} ==> forall p :: 0 <= p < |s.ps| ==> s.ps[p].pc != PAsleep by {
        forall p | 0 <= p < |s.ps| && s.ps[p].pc == PAsleep ensures wake != {} { assert p in wake; }
      }
      var a := StepConsumer(c, wake);
      assert Enabled(s, a) && !IsSpurious(a);
  }

  lemma NoSleeperNoWake(cs: seq<Consumer>)
    ensures Sleepers(cs) == {} ==> forall c :: 0 <= c < |cs| ==> cs[c].pc != CAsleep
  {
    forall c | 0 <= c < |cs| && cs[c].pc == CAsleep ensures Sleepers(cs) != {} {
      assert c in Sleepers(cs);
    }
  }

  /** With the mutex free and nobody able to take it, everybody sleeps or has returned. */
  lemma StuckMeansAsleep(s: State)
    requires LockOk(s.owner, s.ps, s.cs) && !CanStep(s)
    ensures forall p :: 0 <= p < |s.ps| ==> s.ps[p].pc == PAsleep || s.ps[p].pc == PDone
    ensures forall c :: 0 <= c < |s.cs| ==> s.cs[c].pc == CAsleep || s.cs[c].pc == CDone
    ensures s.owner == Free
  {
    if s.owner != Free { OwnerCanStep(s); }
    forall p | 0 <= p < |s.ps| ensures s.ps[p].pc == PAsleep || s.ps[p].pc == PDone {
      var a := StepProducer(p, {});
      assert !(Enabled(s, a) && !IsSpurious(a));
    }
    forall c | 0 <= c < |s.cs| ensures s.cs[c].pc == CAsleep || s.cs[c].pc == CDone {
      var a := StepConsumer(c, {});
      assert !(Enabled(s, a) && !IsSpurious(a));
    }
  }

  lemma NobodyRechecks(s: State)
    requires forall p :: 0 <= p < |s.ps| ==> s.ps[p].pc == PAsleep || s.ps[p].pc == PDone
    requires forall c :: 0 <= c < |s.cs| ==> s.cs[c].pc == CAsleep || s.cs[c].pc == CDone
    ensures Sum(s.ps, RecheckP) == 0 && Sum(s.cs, RecheckC) == 0
    ensures Sum(s.ps, Unfinished) > 0 <==> SleepsP(s.ps)
  {
    SumZero(s.ps, RecheckP);
    SumZero(s.cs, RecheckC);
    SumZero(s.ps, Unfinished);
  }

  /** No lost wakeup and no deadlock: unless all threads have returned, one that is awake can step. */
  lemma NoDeadlock(cfg: Config, s: State)
    requires ValidConfig(cfg) && WaitingOk(cfg, s) && !CanStep(s)
    ensures AllDone(s)
  {
    StuckMeansAsleep(s);
    NobodyRechecks(s);
    if !SleepsC(s.cs) {
      assert s.cs[0].pc == CDone;
    }
  }

  // ---------- The measure ----------

  /** What waking every thread at once can add. */
  function WakeCost(cfg: Config): nat { 3 * (cfg.producers + cfg.consumers) }

  /** What each queued item still has to pay for: its removal, and the signal that follows. */
  function ItemCost(cfg: Config): nat { WakeCost(cfg) + 10 }

  function Left(cfg: Config, p: Producer): nat {
    if p.produced < cfg.items then cfg.items - p.produced else 0
  }

  function Pushing(cfg: Config, left: nat, stage: nat): nat {
    Times(2 * ItemCost(cfg), left) + WakeCost(cfg) + 5 + stage
  }

  function ProducerRank(cfg: Config, p: Producer): nat {
    var left := Left(cfg, p);
    var after := if left > 0 then left - 1 else 0;
    match p.pc
    case PLock => Pushing(cfg, left, 3)
    case PRelock => Pushing(cfg, left, 3)
    case PCheck => Pushing(cfg, left, 2)
    case PAsleep => Pushing(cfg, left, 0)
    case PSignal => Pushing(cfg, after, WakeCost(cfg) + 8)
    case PUnlock => Pushing(cfg, after, 5)
    case PAccount => Pushing(cfg, after, 4)
    case FLock => WakeCost(cfg) + 4
    case FDecrement => WakeCost(cfg) + 3
    case FBroadcast => WakeCost(cfg) + 2
    case FUnlock => 1
    case PDone => 0
  }

  function ConsumerRank(cfg: Config, c: Consumer): nat {
    match c.pc
    case CLock => 4
    case CRelock => 4
    case CCheck => 3
    case CAsleep => 1
    case CExit => 2
    case CDone => 0
    case CSignal => WakeCost(cfg) + 7
    case CUnlock => 6
    case CAccount => 5
  }

  function RankP(cfg: Config): Producer -> nat { p => ProducerRank(cfg, p) }
  function RankC(cfg: Config): Consumer -> nat { c => ConsumerRank(cfg, c) }

  function Measure(cfg: Config, s: State): nat {
    Sum(s.ps, RankP(cfg)) + Sum(s.cs, RankC(cfg)) + Times(ItemCost(cfg), |s.q.items|)
  }

  /** The control flow of a producer: its next program counter, and where it counts an item. */
  predicate ProducerMoves(cfg: Config, r: Producer, r': Producer) {
    if r.pc == PAccount then r'.produced == r.produced + 1 && r'.pc == NextPc(cfg, r'.produced)
    else
      && r'.produced == r.produced
      && match r.pc
         case PLock => r'.pc == PCheck
         case PRelock => r'.pc == PCheck
         case PCheck => r'.pc == PAsleep || r'.pc == PSignal
         case PSignal => r'.pc == PUnlock
         case PUnlock => r'.pc == PAccount
         case FLock => r'.pc == FDecrement
         case FDecrement => r'.pc == FBroadcast
         case FBroadcast => r'.pc == FUnlock
         case FUnlock => r'.pc == PDone
         case _ => false
  }

  lemma ProducerStepMoves(cfg: Config, s: State, p: nat, wake: set<nat>)
    requires Enabled(s, StepProducer(p, wake))
    ensures ProducerMoves(cfg, s.ps[p], ProducerStep(cfg, s, p, wake).ps[p])
  {
  }

  /** What a producer's step takes off its own rank: more than it may add elsewhere. */
  lemma ProducerPays(cfg: Config, r: Producer, r': Producer)
    requires ProducerMoves(cfg, r, r') && (FinishingP(r.pc) || r.produced < cfg.items)
    ensures ProducerRank(cfg, r') < ProducerRank(cfg, r)
    ensures r.pc == PCheck && r'.pc == PSignal ==> ProducerRank(cfg, r') + ItemCost(cfg) < ProducerRank(cfg, r)
    ensures r.pc == PSignal || r.pc == FBroadcast ==> ProducerRank(cfg, r') + WakeCost(cfg) < ProducerRank(cfg, r)
  {
  }

  lemma ConsumerPays(cfg: Config, s: State, c: nat, wake: set<nat>)
    requires Enabled(s, StepConsumer(c, wake)) && s.q.active >= 0
    ensures var r, r' := ConsumerRank(cfg, s.cs[c]), ConsumerRank(cfg, ConsumerStep(s, c, wake).cs[c]);
      match s.cs[c].pc
      case CCheck => if s.q.items == [] then r' < r else r' < r + ItemCost(cfg)
      case CSignal => r' + WakeCost(cfg) < r
      case _ => r' < r
  {
  }

  lemma WakeConsumersCost(cfg: Config, cs: seq<Consumer>, wake: set<nat>)
    requires forall c :: c in wake ==> c < |cs| && cs[c].pc == CAsleep
    ensures Sum(WakeConsumers(cs, wake), RankC(cfg)) <= Sum(cs, RankC(cfg)) + 3 * |cs|
  {
    SumGrowth(cs, WakeConsumers(cs, wake), RankC(cfg), 3);
  }

  lemma WakeProducersCost(cfg: Config, ps: seq<Producer>, wake: set<nat>)
    requires forall p :: p in wake ==> p < |ps| && ps[p].pc == PAsleep
    ensures Sum(WakeProducers(ps, wake), RankP(cfg)) <= Sum(ps, RankP(cfg)) + 3 * |ps|
  {
    SumGrowth(ps, WakeProducers(ps, wake), RankP(cfg), 3);
  }

  lemma ProducerStepDescends(cfg: Config, s: State, p: nat, wake: set<nat>)
    requires RecordsOk(cfg, s.ps) && |s.cs| == cfg.consumers && Enabled(s, StepProducer(p, wake))
    ensures Measure(cfg, Apply(cfg, s, StepProducer(p, wake))) < Measure(cfg, s)
  {
    var s' := Apply(cfg, s, StepProducer(p, wake));
    ProducerStepMoves(cfg, s, p, wake);
    ProducerPays(cfg, s.ps[p], s'.ps[p]);
    SumUpdate(s.ps, p, s'.ps[p], RankP(cfg));
    if s.ps[p].pc == PSignal { WakeConsumersCost(cfg, s.cs, wake); }
    if s.ps[p].pc == FBroadcast { WakeConsumersCost(cfg, s.cs, Sleepers(s.cs)); }
  }

  lemma ConsumerStepDescends(cfg: Config, s: State, c: nat, wake: set<nat>)
    requires RecordsOk(cfg, s.ps) && s.q.active >= 0 && Enabled(s, StepConsumer(c, wake))
    ensures Measure(cfg, Apply(cfg, s, StepConsumer(c, wake))) < Measure(cfg, s)
  {
    var s' := Apply(cfg, s, StepConsumer(c, wake));
    ConsumerPays(cfg, s, c, wake);
    SumUpdate(s.cs, c, s'.cs[c], RankC(cfg));
    if s.cs[c].pc == CSignal { WakeProducersCost(cfg, s.ps, wake); }
  }

  lemma StepDescends(cfg: Config, s: State, a: Action)
    requires RecordsOk(cfg, s.ps) && |s.cs| == cfg.consumers && s.q.active >= 0 && Enabled(s, a)
    ensures IsSpurious(a) ==> Measure(cfg, Apply(cfg, s, a)) <= Measure(cfg, s) + 3
    ensures !IsSpurious(a) ==> Measure(cfg, Apply(cfg, s, a)) < Measure(cfg, s)
  {
    match a
    case StepProducer(p, wake) => ProducerStepDescends(cfg, s, p, wake);
    case StepConsumer(c, wake) => ConsumerStepDescends(cfg, s, c, wake);
    case SpuriousProducer(p) => SpuriousProducerCosts(cfg, s, p);
    case SpuriousConsumer(c) => SpuriousConsumerCosts(cfg, s, c);
  }

  lemma SpuriousProducerCosts(cfg: Config, s: State, p: nat)
    requires Enabled(s, SpuriousProducer(p))
    ensures Measure(cfg, Apply(cfg, s, SpuriousProducer(p))) <= Measure(cfg, s) + 3
  {
    SumUpdate(s.ps, p, s.ps[p].(pc := PRelock), RankP(cfg));
  }

  lemma SpuriousConsumerCosts(cfg: Config, s: State, c: nat)
    requires Enabled(s, SpuriousConsumer(c))
    ensures Measure(cfg, Apply(cfg, s, SpuriousConsumer(c))) <= Measure(cfg, s) + 3
  {
    SumUpdate(s.cs, c, s.cs[c].(pc := CRelock), RankC(cfg));
  }

  function SpuriousIn(actions: seq<Action>): nat {
    if actions == [] then 0
    else SpuriousIn(actions[..|actions| - 1]) + (if IsSpurious(actions[|actions| - 1]) then 1 else 0)
  }

  lemma RunStepDescends(cfg: Config, states: seq<State>, actions: seq<Action>, i: nat)
    requires ValidConfig(cfg) && IsRun(cfg, states, actions) && i < |actions|
    ensures Measure(cfg, states[i + 1]) + 1 <= Measure(cfg, states[i]) + (if IsSpurious(actions[i]) then 4 else 0)
  {
    RunInv(cfg, states, actions, i);
    StepDescends(cfg, states[i], actions[i]);
  }

  /** Ranks that fall at every step, but for four at most at a spurious wakeup. */
  lemma {:induction false} RanksDescend(ranks: seq<nat>, actions: seq<Action>, i: nat)
    requires |ranks| == |actions| + 1 && i <= |actions|
    requires forall j :: 0 <= j < |actions| ==> ranks[j + 1] + 1 <= ranks[j] + (if IsSpurious(actions[j]) then 4 else 0)
    ensures ranks[i] + i <= ranks[0] + 4 * SpuriousIn(actions[..i])
  {
    if i > 0 {
      RanksDescend(ranks, actions, i - 1);
      assert ranks[i - 1 + 1] + 1 <= ranks[i - 1] + (if IsSpurious(actions[i - 1]) then 4 else 0);
      assert actions[..i][..i - 1] == actions[..i - 1];
    }
  }

  lemma RunDescends(cfg: Config, states: seq<State>, actions: seq<Action>)
    requires ValidConfig(cfg) && IsRun(cfg, states, actions)
    ensures |actions| <= Measure(cfg, states[0]) + 4 * SpuriousIn(actions)
  {
    var ranks := seq(|states|, i requires 0 <= i < |states| => Measure(cfg, states[i]));
    forall j | 0 <= j < |actions|
      ensures ranks[j + 1] + 1 <= ranks[j] + (if IsSpurious(actions[j]) then 4 else 0)
    {
      RunStepDescends(cfg, states, actions, j);
    }
    RanksDescend(ranks, actions, |actions|);
    assert actions[..|actions|] == actions;
  }

  /** The longest a run can be, in closed form. */
  function Bound(cfg: Config): nat {
    cfg.producers * (2 * ItemCost(cfg) * cfg.items + WakeCost(cfg) + 8) + 4 * cfg.consumers
  }

  lemma InitMeasure(cfg: Config)
    ensures Measure(cfg, Init(cfg)) <= Bound(cfg)
  {
    var s := Init(cfg);
    TimesIs(2 * ItemCost(cfg), cfg.items);
    SumBelow(s.ps, RankP(cfg), 2 * ItemCost(cfg) * cfg.items + WakeCost(cfg) + 8);
    SumBelow(s.cs, RankC(cfg), 4);
  }

  lemma {:induction false} SumBelow<T>(s: seq<T>, f: T -> nat, v: nat)
    requires forall i :: 0 <= i < |s| ==> f(s[i]) <= v
    ensures Sum(s, f) <= |s| * v
  {
    if s != [] { SumBelow(s[1..], f, v); }
  }

  /** Every run is finite: its length is bounded by a function of the configuration and its spurious wakeups. */
  lemma RunsAreBounded(cfg: Config, states: seq<State>, actions: seq<Action>)
    requires ValidConfig(cfg) && IsRun(cfg, states, actions)
    ensures |actions| <= Bound(cfg) + 4 * SpuriousIn(actions)
  {
    RunDescends(cfg, states, actions);
    InitMeasure(cfg);
  }
}
