/** Every run of the store-buffering harness is finite, and goes on until all three threads have returned. */
module SbTermination {
  import opened Folds
  import opened SbProtocol
  import opened SbSafety
  import opened SbTheorems

  /** Steps and drains a worker, or the main thread, still takes in the current trial. */
  function WorkerLeft(pc: WorkerPc): nat {
    match pc
    case StartArrive => 10
    case StartWait => 9
    case StoreOwn => 8
    case Fence => 6
    case LoadOther => 5
    case StoreResult => 4
    case EndArrive => 2
    case EndWait => 1
    case Returned => 0
  }

  function MainLeft(pc: MainPc): nat {
    match pc
    case ResetX => 15
    case ResetY => 13
    case ResetR0 => 11
    case ResetR1 => 9
    case MStartArrive => 7
    case MStartWait => 6
    case MEndArrive => 5
    case MEndWait => 4
    case ReadR0 => 3
    case ReadR1 => 2
    case Classify => 1
    case Unexpected => 0
    case MJoin => 0
    case MReturned => 0
  }

  function TrialsAfter(cfg: Config, trial: nat): nat {
    if trial < Total(cfg) then Total(cfg) - trial - 1 else 0
  }

  function WorkerRank(cfg: Config, w: Worker): nat {
    Times(10, TrialsAfter(cfg, w.trial)) + WorkerLeft(w.pc) + |w.buf|
  }

  function MainRank(cfg: Config, m: Main): nat {
    Times(15, TrialsAfter(cfg, m.trial)) + MainLeft(m.pc) + |m.buf| + if m.pc == MReturned then 0 else 1
  }

  function Measure(cfg: Config, s: State): nat
    requires |s.ws| == 2
  {
    WorkerRank(cfg, s.ws[0]) + WorkerRank(cfg, s.ws[1]) + MainRank(cfg, s.m)
  }

  /** Entering the next trial is paid for by the one before. */
  lemma NextTrialPays(cfg: Config, k: nat, trial: nat)
    requires trial + 1 < Total(cfg)
    ensures Times(k, TrialsAfter(cfg, trial)) == Times(k, TrialsAfter(cfg, trial + 1)) + k
  {
  }

  lemma LastTrial(cfg: Config, k: nat, trial: nat)
    requires trial + 1 >= Total(cfg)
    ensures Times(k, TrialsAfter(cfg, trial)) == 0 == Times(k, TrialsAfter(cfg, trial + 1))
  {
  }

  lemma NewTrialPays(cfg: Config, k: nat, trial: nat)
    ensures Times(k, TrialsAfter(cfg, trial + 1)) + (if trial + 1 < Total(cfg) then k else 0)
         == Times(k, TrialsAfter(cfg, trial))
  {
    if trial + 1 < Total(cfg) { NextTrialPays(cfg, k, trial); } else { LastTrial(cfg, k, trial); }
  }

  lemma WorkerPays(cfg: Config, s: State, t: nat)
    requires t < |s.ws| && Enabled(s, StepWorker(t))
    ensures var s' := WorkerStep(cfg, s, t);
      && s'.ws == s.ws[t := s'.ws[t]] && s'.m == s.m
      && WorkerRank(cfg, s'.ws[t]) < WorkerRank(cfg, s.ws[t])
  {
    NewTrialPays(cfg, 10, s.ws[t].trial);
  }

  lemma MainPays(cfg: Config, s: State)
    requires Enabled(s, StepMain)
    ensures MainStep(cfg, s).ws == s.ws && MainRank(cfg, MainStep(cfg, s).m) < MainRank(cfg, s.m)
  {
    NewTrialPays(cfg, 15, s.m.trial);
  }

  /** Every step and every drain lowers the measure. */
  lemma StepDescends(cfg: Config, s: State, a: Action)
    requires |s.ws| == 2 && Enabled(s, a)
    ensures |Apply(cfg, s, a).ws| == 2 && Measure(cfg, Apply(cfg, s, a)) < Measure(cfg, s)
  {
    match a
    case StepWorker(t) => WorkerPays(cfg, s, t);
    case StepMain => MainPays(cfg, s);
    case DrainWorker(t) =>
    case DrainMain =>
  }

  lemma {:induction false} RanksDescend(ranks: seq<nat>, i: nat)
    requires i < |ranks| && forall j :: 0 < j < |ranks| ==> ranks[j] < ranks[j - 1]
    ensures ranks[i] + i <= ranks[0]
  {
    if i > 0 { RanksDescend(ranks, i - 1); }
  }

  lemma {:induction false} AlwaysTwoWorkers(cfg: Config, states: seq<State>, actions: seq<Action>, i: nat)
    requires IsRun(cfg, states, actions) && i < |states|
    ensures |states[i].ws| == 2
  {
    if i > 0 {
      AlwaysTwoWorkers(cfg, states, actions, i - 1);
      StepDescends(cfg, states[i - 1], actions[i - 1]);
    }
  }

  lemma RunDescends(cfg: Config, states: seq<State>, actions: seq<Action>)
    requires IsRun(cfg, states, actions)
    ensures |states[0].ws| == 2 && |actions| <= Measure(cfg, states[0])
  {
    forall i | 0 <= i < |states| ensures |states[i].ws| == 2 { AlwaysTwoWorkers(cfg, states, actions, i); }
    var ranks := seq(|states|, i requires 0 <= i < |states| => Measure(cfg, states[i]));
    forall j | 0 < j < |ranks| ensures ranks[j] < ranks[j - 1] {
      StepDescends(cfg, states[j - 1], actions[j - 1]);
    }
    RanksDescend(ranks, |actions|);
  }

  /** Every run is finite: 35 steps and drains a trial, and the join. */
  lemma RunsAreBounded(cfg: Config, states: seq<State>, actions: seq<Action>)
    requires IsRun(cfg, states, actions)
    ensures |actions| <= 35 * Total(cfg) + 1
  {
    RunDescends(cfg, states, actions);
    TimesIs(10, TrialsAfter(cfg, 0));
    TimesIs(15, TrialsAfter(cfg, 0));
  }

  lemma ExtendRun(cfg: Config, states: seq<State>, actions: seq<Action>, a: Action, next: State)
    requires IsRun(cfg, states, actions) && Enabled(states[|actions|], a) && next == Apply(cfg, states[|actions|], a)
    ensures IsRun(cfg, states + [next], actions + [a])
  {
  }

  /** A run in which nothing can go on has returned everywhere, with every measured trial counted. */
  lemma MaximalRunsReturn(cfg: Config, states: seq<State>, actions: seq<Action>)
    requires IsRun(cfg, states, actions) && !exists a :: Enabled(states[|actions|], a)
    ensures var s := states[|actions|];
      && AllReturned(s) && CountSum(s.m.counts) == Measured(cfg, Total(cfg))
      && (cfg.warmup >= 0 && cfg.iterations >= 0 ==> CountSum(s.m.counts) == cfg.iterations)
      && (cfg.mode == SeqCst ==> s.m.counts.c00 == 0)
  {
    NeverStuck(cfg, states, actions, |actions|);
    CountersAddUp(cfg, states, actions, |actions|);
    if cfg.mode == SeqCst { SeqCstForbidsBothZero(cfg, states, actions, |actions|); }
    RunInv(cfg, states, actions, |actions|);
    ReturnedAfterAll(cfg, states[|actions|]);
  }

  lemma ReturnedAfterAll(cfg: Config, s: State)
    requires Inv(cfg, s) && s.m.pc == MReturned
    ensures s.m.trial == Total(cfg)
  {
  }

  /** Whatever has happened so far, the run goes on to such an end. */
  lemma {:induction false} EveryRunReturns(cfg: Config, states: seq<State>, actions: seq<Action>)
    returns (states': seq<State>, actions': seq<Action>)
    requires IsRun(cfg, states, actions)
    ensures IsRun(cfg, states', actions') && states <= states' && actions <= actions'
    ensures var s := states'[|actions'|];
      && AllReturned(s) && CountSum(s.m.counts) == Measured(cfg, Total(cfg))
      && (cfg.warmup >= 0 && cfg.iterations >= 0 ==> CountSum(s.m.counts) == cfg.iterations)
    decreases 35 * Total(cfg) + 1 - |actions|
  {
    var s := states[|actions|];
    if a :| Enabled(s, a) {
      var next := Apply(cfg, s, a);
      ExtendRun(cfg, states, actions, a, next);
      RunsAreBounded(cfg, states + [next], actions + [a]);
      states', actions' := EveryRunReturns(cfg, states + [next], actions + [a]);
    } else {
      states', actions' := states, actions;
      MaximalRunsReturn(cfg, states, actions);
    }
  }
}
