/** What the thread pool promises over whole runs. */
module PoolTheorems {
  import opened Folds
  import opened PoolProtocol
  import opened PoolSafety

  // ---------- Results ----------

  /**
   When a round's `thread_pool_wait_all` is about to return, every slot holds its task's value,
   each task has run exactly once, and no worker is queued to run, or is running, any task: nobody
   but the main thread can write a slot until the next round is submitted.
   */
  lemma WaitAllReturnsResults(cfg: Config, states: seq<State>, actions: seq<Action>, i: nat)
    requires ValidConfig(cfg) && IsRun(cfg, states, actions) && i < |states|
    requires Quiet(states[i].m.pc) && states[i].m.pc != MClear
    ensures var s := states[i];
      && |s.results| == |s.runs| == cfg.tasks
      && (forall t :: 0 <= t < cfg.tasks ==> s.results[t] == cfg.work(t) && s.runs[t] == 1)
      && s.queue == [] && forall w :: 0 <= w < |s.ws| ==> !Holding(s.ws[w].pc)
  {
    RunInv(cfg, states, actions, i);
    var s := states[i];
    NothingHeld(s);
    forall t | 0 <= t < cfg.tasks ensures s.results[t] == cfg.work(t) && s.runs[t] == 1 {
      AllRan(cfg, s, t);
    }
    forall w | 0 <= w < |s.ws| ensures !Holding(s.ws[w].pc) { assert Busy(s.ws[w]) == 0; }
  }

  /** At every moment `outstanding` counts queued and running tasks, and a task never runs twice in a round. */
  lemma OutstandingIsExact(cfg: Config, states: seq<State>, actions: seq<Action>, i: nat)
    requires ValidConfig(cfg) && IsRun(cfg, states, actions) && i < |states|
    ensures var s := states[i];
      && s.outstanding == |s.queue| + Sum(s.ws, Busy)
      && s.m.pc != MDie
      && |s.runs| == cfg.tasks
      && forall t :: 0 <= t < cfg.tasks && t < Cleared(cfg, s.m) ==> s.runs[t] <= 1
  {
    RunInv(cfg, states, actions, i);
  }

  /** The checksum depends on the tasks only: not on the number of workers, the capacity, the rounds or the schedule. */
  lemma ChecksumIsScheduleIndependent(
      cfg1: Config, states1: seq<State>, actions1: seq<Action>, i: nat,
      cfg2: Config, states2: seq<State>, actions2: seq<Action>, j: nat)
    requires ValidConfig(cfg1) && IsRun(cfg1, states1, actions1) && i < |states1| && states1[i].m.pc == MReturned
    requires ValidConfig(cfg2) && IsRun(cfg2, states2, actions2) && j < |states2| && states2[j].m.pc == MReturned
    requires cfg1.tasks == cfg2.tasks && cfg1.work == cfg2.work
    ensures states1[i].m.checksum == states2[j].m.checksum == XorOfWork(cfg1.work, cfg1.tasks)
  {
    RunInv(cfg1, states1, actions1, i);
    RunInv(cfg2, states2, actions2, j);
  }

  // ---------- No deadlock ----------

  predicate AllReturned(s: State) {
    s.m.pc == MReturned && forall w :: 0 <= w < |s.ws| ==> s.ws[w].pc == WReturned
  }

  ghost predicate CanStep(cfg: Config, s: State) {
    exists a :: Enabled(cfg, s, a) && !IsSpurious(a)
  }

  lemma OwnerCanStep(cfg: Config, s: State)
    requires LockOk(s.owner, s.m, s.ws) && s.owner != Free
    ensures CanStep(cfg, s)
  {
    var a := if s.owner == OfMain then StepMain(Sleepers(s.ws)) else StepWorker(s.owner.w);
    forall w | 0 <= w < |s.ws| && s.ws[w].pc == WAsleep ensures Sleepers(s.ws) != {} {
      assert w in Sleepers(s.ws);
    }
    assert Enabled(cfg, s, a) && !IsSpurious(a);
  }

  /** With the mutex free and nobody able to go on, the workers sleep or have returned. */
  lemma StuckWorkers(cfg: Config, s: State)
    requires LockOk(s.owner, s.m, s.ws) && |s.results| == |s.runs| == cfg.tasks && !CanStep(cfg, s)
    requires forall w :: 0 <= w < |s.ws| && s.ws[w].pc == WRun ==> s.ws[w].task < cfg.tasks
    ensures s.owner == Free
    ensures forall w :: 0 <= w < |s.ws| ==> s.ws[w].pc == WAsleep || s.ws[w].pc == WReturned
  {
    if s.owner != Free { OwnerCanStep(cfg, s); }
    forall w | 0 <= w < |s.ws| ensures s.ws[w].pc == WAsleep || s.ws[w].pc == WReturned {
      var a := StepWorker(w);
      assert !(Enabled(cfg, s, a) && !IsSpurious(a));
    }
  }

  lemma StuckMain(cfg: Config, s: State)
    requires LockOk(s.owner, s.m, s.ws) && s.owner == Free && MainOk(cfg, s.m, s.stop) && !CanStep(cfg, s)
    requires |s.results| == |s.runs| == cfg.tasks && |s.ws| == cfg.workers
    ensures s.m.pc == MAsleepFull || s.m.pc == MAsleepDone || s.m.pc == MReturned
            || (s.m.pc == MJoin && s.ws[s.m.i].pc != WReturned)
  {
    var a := StepMain({});
    assert !(Enabled(cfg, s, a) && !IsSpurious(a));
  }

  lemma NobodyBusy(ws: seq<Worker>)
    requires forall w :: 0 <= w < |ws| ==> ws[w].pc == WAsleep || ws[w].pc == WReturned
    ensures Sum(ws, Busy) == Sum(ws, Rechecks) == Sum(ws, Signals) == Sum(ws, Broadcasts) == 0
  {
    SumZero(ws, Busy);
    SumZero(ws, Rechecks);
    SumZero(ws, Signals);
    SumZero(ws, Broadcasts);
  }

  /** No lost wakeup and no deadlock; when nothing can step, stopping has drained the pool. */
  lemma NoDeadlock(cfg: Config, s: State)
    requires ValidConfig(cfg) && WaitingOk(cfg, s) && !CanStep(cfg, s)
    requires |s.results| == |s.runs| == cfg.tasks
    requires forall w :: 0 <= w < |s.ws| && s.ws[w].pc == WRun ==> s.ws[w].task < cfg.tasks
    ensures AllReturned(s) && s.queue == [] && s.outstanding == 0
  {
    StuckWorkers(cfg, s);
    StuckMain(cfg, s);
    NobodyBusy(s.ws);
    assert s.ws[0].pc == WAsleep || s.stop;
    assert Sleeps(s.ws) ==> !s.stop && s.queue == [];
    assert !s.stop ==> Sleeps(s.ws);
    assert s.stop;
    assert !Sleeps(s.ws);
  }

  /** In every state of every run the pool has been drained and left, or somebody awake can step. */
  lemma NeverStuck(cfg: Config, states: seq<State>, actions: seq<Action>, i: nat)
    requires ValidConfig(cfg) && IsRun(cfg, states, actions) && i < |states|
    ensures var s := states[i];
      (AllReturned(s) && s.queue == [] && s.outstanding == 0) || CanStep(cfg, s)
  {
    RunInv(cfg, states, actions, i);
    if !CanStep(cfg, states[i]) {
      CarriedTasksExist(cfg, states[i]);
      NoDeadlock(cfg, states[i]);
    }
  }

  // ---------- Every run is finite ----------

  function WakeCost(cfg: Config): nat { 3 * (cfg.workers + 1) }
  function TaskCost(cfg: Config): nat { WakeCost(cfg) + 20 }

  /** The cost of `left` submissions, of the rounds after the current one, and of the queued tasks. */
  function Submissions(cfg: Config, left: nat): nat {
    if left == 0 then 0 else Submissions(cfg, left - 1) + 2 * TaskCost(cfg)
  }

  function LaterRounds(cfg: Config, n: nat): nat {
    if n == 0 then 0 else LaterRounds(cfg, n - 1) + RoundCost(cfg)
  }

  function Queued(cfg: Config, n: nat): nat {
    if n == 0 then 0 else Queued(cfg, n - 1) + TaskCost(cfg)
  }

  lemma {:induction false} SubmissionsAre(cfg: Config, left: nat)
    ensures Submissions(cfg, left) == 2 * TaskCost(cfg) * left
  {
    if left > 0 {
      SubmissionsAre(cfg, left - 1);
      assert 2 * TaskCost(cfg) * left == 2 * TaskCost(cfg) * (left - 1) + 2 * TaskCost(cfg);
    }
  }

  lemma {:induction false} LaterRoundsAre(cfg: Config, n: nat)
    ensures LaterRounds(cfg, n) == RoundCost(cfg) * n
  {
    if n > 0 {
      LaterRoundsAre(cfg, n - 1);
      assert RoundCost(cfg) * n == RoundCost(cfg) * (n - 1) + RoundCost(cfg);
    }
  }

  function RoundCost(cfg: Config): nat { Submissions(cfg, cfg.tasks) + 9 + cfg.tasks }

  function StopCost(cfg: Config): nat { WakeCost(cfg) + cfg.workers + 6 }

  /** Rank within the current round, or within the closing phase. */
  function PhaseRank(cfg: Config, m: Main): nat {
    var left := if m.i < cfg.tasks then cfg.tasks - m.i else 0;
    var after := if left > 0 then left - 1 else 0;
    match m.pc
    case MClear => Submissions(cfg, cfg.tasks) + 9 + left
    case MLock => Submissions(cfg, left) + 8
    case MRelock => Submissions(cfg, left) + 8
    case MCheck => Submissions(cfg, left) + 7
    case MAsleepFull => Submissions(cfg, left) + 5
    case MSignal => Submissions(cfg, after) + WakeCost(cfg) + 11
    case MUnlock => Submissions(cfg, after) + 9
    case MDie => 0
    case MWaitLock => 4
    case MWaitRelock => 4
    case MWaitCheck => 3
    case MAsleepDone => 1
    case MWaitUnlock => 1
    case MRead => StopCost(cfg) + left
    case MStopLock => StopCost(cfg)
    case MStop => StopCost(cfg) - 1
    case MBroadcastEmpty => StopCost(cfg) - 2
    case MBroadcastFull => cfg.workers + 3
    case MStopUnlock => cfg.workers + 2
    case MJoin => (if m.i < cfg.workers then cfg.workers - m.i else 0) + 1
    case MReturned => 0
  }

  function MainRank(cfg: Config, m: Main): nat {
    if Closing(m.pc) then PhaseRank(cfg, m)
    else PhaseRank(cfg, m) + AfterRound(cfg, m.round)
  }

  /** What is left for the main thread to do after round `round`. */
  function AfterRound(cfg: Config, round: nat): nat {
    StopCost(cfg) + cfg.tasks + LaterRounds(cfg, if round < cfg.rounds then cfg.rounds - round - 1 else 0)
  }

  function WorkerRank(w: Worker): nat {
    match w.pc
    case WLock => 4
    case WRelock => 4
    case WCheck => 3
    case WAsleep => 1
    case WExit => 2
    case WReturned => 0
    case WSignal => 18
    case WUnlock => 14
    case WRun => 13
    case WLockAgain => 12
    case WFinish => 11
    case WBroadcast => 10
    case WUnlockAgain => 5
  }

  function Measure(cfg: Config, s: State): nat {
    MainRank(cfg, s.m) + Sum(s.ws, WorkerRank) + Queued(cfg, |s.queue|)
  }

  /** The control flow of the main thread. */
  predicate MainMoves(cfg: Config, m: Main, m': Main) {
    if m.pc == MWaitUnlock then
      if m.round + 1 < cfg.rounds then m'.pc == MClear && m'.round == m.round + 1 && m'.i == 0
      else m'.pc == MRead && m'.round == m.round && m'.i == 0
    else
      && m'.round == m.round
      && match m.pc
         case MClear => if m.i + 1 < cfg.tasks then m'.pc == MClear && m'.i == m.i + 1 else m'.pc == MLock && m'.i == 0
         case MLock => m'.pc == MCheck && m'.i == m.i
         case MRelock => m'.pc == MCheck && m'.i == m.i
         case MCheck => (m'.pc == MAsleepFull || m'.pc == MSignal) && m'.i == m.i
         case MSignal => m'.pc == MUnlock && m'.i == m.i
         case MUnlock => m'.pc == (if m.i + 1 < cfg.tasks then MLock else MWaitLock) && m'.i == m.i + 1
         case MWaitLock => m'.pc == MWaitCheck
         case MWaitRelock => m'.pc == MWaitCheck
         case MWaitCheck => m'.pc == MAsleepDone || m'.pc == MWaitUnlock
         case MRead => m'.pc == (if m.i + 1 < cfg.tasks then MRead else MStopLock) && m'.i == m.i + 1
         case MStopLock => m'.pc == MStop
         case MStop => m'.pc == MBroadcastEmpty
         case MBroadcastEmpty => m'.pc == MBroadcastFull
         case MBroadcastFull => m'.pc == MStopUnlock
         case MStopUnlock => m'.pc == MJoin && m'.i == 0
         case MJoin => m'.pc == (if m.i + 1 < cfg.workers then MJoin else MReturned) && m'.i == m.i + 1
         case _ => false
  }

  lemma MainStepMoves(cfg: Config, s: State, wake: set<nat>)
    requires MainOk(cfg, s.m, s.stop) && Enabled(cfg, s, StepMain(wake))
    ensures MainMoves(cfg, s.m, MainStep(cfg, s, wake).m)
  {
  }

  lemma ClosingPays(cfg: Config, m: Main, m': Main)
    requires MainMoves(cfg, m, m') && Closing(m.pc)
    requires m.pc == MRead ==> m.i < cfg.tasks
    requires m.pc == MJoin ==> m.i < cfg.workers
    ensures Closing(m'.pc) && PhaseRank(cfg, m') < PhaseRank(cfg, m)
    ensures m.pc == MBroadcastEmpty ==> PhaseRank(cfg, m') + 3 * cfg.workers < PhaseRank(cfg, m)
  {
  }

  lemma CheckPays(cfg: Config, m: Main, m': Main)
    requires MainMoves(cfg, m, m') && m.pc == MCheck && m.i < cfg.tasks
    ensures PhaseRank(cfg, m') < PhaseRank(cfg, m)
    ensures m'.pc == MSignal ==> PhaseRank(cfg, m') + TaskCost(cfg) < PhaseRank(cfg, m)
  {
  }

  lemma SignalPays(cfg: Config, m: Main, m': Main)
    requires MainMoves(cfg, m, m') && m.pc == MSignal && m.i < cfg.tasks
    ensures PhaseRank(cfg, m') < PhaseRank(cfg, m)
    ensures PhaseRank(cfg, m') + 3 * cfg.workers < PhaseRank(cfg, m)
  {
  }

  lemma UnlockPays(cfg: Config, m: Main, m': Main)
    requires MainMoves(cfg, m, m') && m.pc == MUnlock && m.i < cfg.tasks
    ensures PhaseRank(cfg, m') < PhaseRank(cfg, m)
  {
  }

  lemma SubmittingPays(cfg: Config, m: Main, m': Main)
    requires MainMoves(cfg, m, m') && Submitting(m.pc) && m.i < cfg.tasks
    ensures !Closing(m'.pc) && PhaseRank(cfg, m') < PhaseRank(cfg, m)
    ensures m.pc == MCheck && m'.pc == MSignal ==> PhaseRank(cfg, m') + TaskCost(cfg) < PhaseRank(cfg, m)
    ensures m.pc == MSignal ==> PhaseRank(cfg, m') + 3 * cfg.workers < PhaseRank(cfg, m)
  {
    if m.pc == MCheck {
      CheckPays(cfg, m, m');
    } else if m.pc == MUnlock {
      UnlockPays(cfg, m, m');
    } else if m.pc == MSignal {
      SignalPays(cfg, m, m');
    }
  }

  lemma RoundEndsPay(cfg: Config, m: Main, m': Main)
    requires MainMoves(cfg, m, m') && !Closing(m.pc) && !Submitting(m.pc) && m.pc != MWaitUnlock
    requires m.pc == MClear ==> m.i < cfg.tasks
    ensures !Closing(m'.pc) && PhaseRank(cfg, m') < PhaseRank(cfg, m)
  {
  }

  /** Within a phase every step of the main thread lowers its phase rank, by enough to pay for its effects. */
  lemma PhasePays(cfg: Config, m: Main, m': Main)
    requires MainMoves(cfg, m, m') && m.pc != MWaitUnlock
    requires m.pc == MClear || Submitting(m.pc) || m.pc == MRead ==> m.i < cfg.tasks
    requires m.pc == MJoin ==> m.i < cfg.workers
    ensures Closing(m.pc) <==> Closing(m'.pc)
    ensures PhaseRank(cfg, m') < PhaseRank(cfg, m)
    ensures m.pc == MCheck && m'.pc == MSignal ==> PhaseRank(cfg, m') + TaskCost(cfg) < PhaseRank(cfg, m)
    ensures m.pc == MSignal || m.pc == MBroadcastEmpty ==> PhaseRank(cfg, m') + 3 * cfg.workers < PhaseRank(cfg, m)
  {
    if Closing(m.pc) {
      ClosingPays(cfg, m, m');
    } else if Submitting(m.pc) {
      SubmittingPays(cfg, m, m');
    } else {
      RoundEndsPay(cfg, m, m');
    }
  }

  lemma PhaseStarts(cfg: Config, m: Main)
    requires m.i == 0
    ensures m.pc == MClear ==> PhaseRank(cfg, m) == RoundCost(cfg)
    ensures m.pc == MRead ==> PhaseRank(cfg, m) == StopCost(cfg) + cfg.tasks
  {
  }

  lemma AnotherRound(cfg: Config, round: nat)
    requires round + 1 < cfg.rounds
    ensures AfterRound(cfg, round) == AfterRound(cfg, round + 1) + RoundCost(cfg)
  {
  }

  lemma AtLeastStopping(cfg: Config, round: nat)
    ensures AfterRound(cfg, round) >= StopCost(cfg) + cfg.tasks
  {
  }

  lemma NextRoundPays(cfg: Config, m: Main, m': Main)
    requires m.pc == MWaitUnlock && m.round + 1 < cfg.rounds
    requires m'.pc == MClear && m'.round == m.round + 1 && m'.i == 0
    ensures MainRank(cfg, m') < MainRank(cfg, m)
  {
    PhaseStarts(cfg, m');
    AnotherRound(cfg, m.round);
    assert MainRank(cfg, m') == RoundCost(cfg) + AfterRound(cfg, m.round + 1);
    assert MainRank(cfg, m) == 1 + AfterRound(cfg, m.round);
  }

  lemma LastRoundPays(cfg: Config, m: Main, m': Main)
    requires m.pc == MWaitUnlock && m'.pc == MRead && m'.i == 0
    ensures MainRank(cfg, m') < MainRank(cfg, m)
  {
    PhaseStarts(cfg, m');
    AtLeastStopping(cfg, m.round);
    assert MainRank(cfg, m') == StopCost(cfg) + cfg.tasks;
    assert MainRank(cfg, m) == 1 + AfterRound(cfg, m.round);
  }

  /** A finished round pays for clearing and submitting the next one. */
  lemma RoundPays(cfg: Config, m: Main, m': Main)
    requires MainMoves(cfg, m, m') && m.pc == MWaitUnlock && m.round < cfg.rounds
    ensures MainRank(cfg, m') < MainRank(cfg, m)
  {
    if m.round + 1 < cfg.rounds { NextRoundPays(cfg, m, m'); } else { LastRoundPays(cfg, m, m'); }
  }

  lemma MainPays(cfg: Config, m: Main, m': Main, stop: bool)
    requires MainOk(cfg, m, stop) && MainMoves(cfg, m, m')
    ensures MainRank(cfg, m') < MainRank(cfg, m)
    ensures m.pc == MCheck && m'.pc == MSignal ==> MainRank(cfg, m') + TaskCost(cfg) < MainRank(cfg, m)
    ensures m.pc == MSignal || m.pc == MBroadcastEmpty ==> MainRank(cfg, m') + 3 * cfg.workers < MainRank(cfg, m)
  {
    if m.pc == MWaitUnlock { RoundPays(cfg, m, m'); } else { PhasePays(cfg, m, m'); }
  }

  lemma WakeWorkersCost(ws: seq<Worker>, wake: set<nat>)
    requires forall w :: w in wake ==> w < |ws| && ws[w].pc == WAsleep
    ensures Sum(WakeWorkers(ws, wake), WorkerRank) <= Sum(ws, WorkerRank) + 3 * |ws|
  {
    SumGrowth(ws, WakeWorkers(ws, wake), WorkerRank, 3);
  }

  lemma MainStepDescends(cfg: Config, s: State, wake: set<nat>)
    requires MainOk(cfg, s.m, s.stop) && |s.ws| == cfg.workers && Enabled(cfg, s, StepMain(wake))
    ensures Measure(cfg, Apply(cfg, s, StepMain(wake))) < Measure(cfg, s)
  {
    MainStepMoves(cfg, s, wake);
    MainPays(cfg, s.m, MainStep(cfg, s, wake).m, s.stop);
    if s.m.pc == MSignal { WakeWorkersCost(s.ws, wake); }
    if s.m.pc == MBroadcastEmpty { WakeWorkersCost(s.ws, Sleepers(s.ws)); }
  }

  lemma WokenPhase(cfg: Config, m: Main)
    ensures m.pc == MAsleepFull ==> PhaseRank(cfg, m.(pc := MRelock)) == PhaseRank(cfg, m) + 3
    ensures m.pc == MAsleepDone ==> PhaseRank(cfg, m.(pc := MWaitRelock)) == PhaseRank(cfg, m) + 3
  {
  }

  /** Being woken adds at most three to the main thread's rank. */
  lemma WokenMain(cfg: Config, m: Main)
    ensures m.pc == MAsleepFull ==> MainRank(cfg, m.(pc := MRelock)) == MainRank(cfg, m) + 3
    ensures m.pc == MAsleepDone ==> MainRank(cfg, m.(pc := MWaitRelock)) == MainRank(cfg, m) + 3
  {
    WokenPhase(cfg, m);
    if m.pc == MAsleepFull {
      assert MainRank(cfg, m) == PhaseRank(cfg, m) + AfterRound(cfg, m.round);
    } else if m.pc == MAsleepDone {
      assert MainRank(cfg, m) == PhaseRank(cfg, m) + AfterRound(cfg, m.round);
    }
  }

  /** Every step of a worker lowers its own rank; the task it takes and the wakeup it causes are paid for. */
  lemma WorkerPays(cfg: Config, s: State, w: nat)
    requires Enabled(cfg, s, StepWorker(w))
    ensures var s' := WorkerStep(cfg, s, w);
      && s'.ws == s.ws[w := s'.ws[w]]
      && MainRank(cfg, s'.m) + WorkerRank(s'.ws[w]) + Queued(cfg, |s'.queue|)
         < MainRank(cfg, s.m) + WorkerRank(s.ws[w]) + Queued(cfg, |s.queue|)
  {
    if s.ws[w].pc == WSignal || s.ws[w].pc == WBroadcast {
      WokenMain(cfg, s.m);
    } else {
      WorkerAlonePays(cfg, s, w);
    }
  }

  /** Elsewhere the main thread is left alone. */
  lemma WorkerAlonePays(cfg: Config, s: State, w: nat)
    requires Enabled(cfg, s, StepWorker(w)) && s.ws[w].pc != WSignal && s.ws[w].pc != WBroadcast
    ensures var s' := WorkerStep(cfg, s, w);
      && s'.m == s.m && s'.ws == s.ws[w := s'.ws[w]]
      && WorkerRank(s'.ws[w]) + Queued(cfg, |s'.queue|) < WorkerRank(s.ws[w]) + Queued(cfg, |s.queue|)
  {
  }

  lemma WorkerStepDescends(cfg: Config, s: State, w: nat)
    requires Enabled(cfg, s, StepWorker(w))
    ensures Measure(cfg, Apply(cfg, s, StepWorker(w))) < Measure(cfg, s)
  {
    WorkerPays(cfg, s, w);
    SumUpdate(s.ws, w, WorkerStep(cfg, s, w).ws[w], WorkerRank);
  }

  lemma StepDescends(cfg: Config, s: State, a: Action)
    requires MainOk(cfg, s.m, s.stop) && |s.ws| == cfg.workers && Enabled(cfg, s, a)
    ensures IsSpurious(a) ==> Measure(cfg, Apply(cfg, s, a)) <= Measure(cfg, s) + 3
    ensures !IsSpurious(a) ==> Measure(cfg, Apply(cfg, s, a)) < Measure(cfg, s)
  {
    match a
    case StepMain(wake) => MainStepDescends(cfg, s, wake);
    case StepWorker(w) => WorkerStepDescends(cfg, s, w);
    case SpuriousMain => WokenMain(cfg, s.m);
    case SpuriousWorker(w) => SumUpdate(s.ws, w, s.ws[w].(pc := WRelock), WorkerRank);
  }

  function SpuriousIn(actions: seq<Action>): nat {
    if actions == [] then 0
    else SpuriousIn(actions[..|actions| - 1]) + (if IsSpurious(actions[|actions| - 1]) then 1 else 0)
  }

  lemma RunStepDescends(cfg: Config, states: seq<State>, actions: seq<Action>, i: nat)
    requires ValidConfig(cfg) && IsRun(cfg, states, actions) && i < |actions|
    ensures Measure(cfg, states[i + 1]) + 1 <= Measure(cfg, states[i]) + (if IsSpurious(actions[i]) then 4 else 0)
  {
    RunInv(cfg, states, actions, i);
    StepDescends(cfg, states[i], actions[i]);
  }

  /** Ranks that fall at every step, but for four at most at a spurious wakeup. */
  lemma {:induction false} RanksDescend(ranks: seq<nat>, actions: seq<Action>, i: nat)
    requires |ranks| == |actions| + 1 && i <= |actions|
    requires forall j :: 0 <= j < |actions| ==> ranks[j + 1] + 1 <= ranks[j] + (if IsSpurious(actions[j]) then 4 else 0)
    ensures ranks[i] + i <= ranks[0] + 4 * SpuriousIn(actions[..i])
  {
    if i > 0 {
      RanksDescend(ranks, actions, i - 1);
      assert ranks[i - 1 + 1] + 1 <= ranks[i - 1] + (if IsSpurious(actions[i - 1]) then 4 else 0);
      assert actions[..i][..i - 1] == actions[..i - 1];
    }
  }

  lemma RunDescends(cfg: Config, states: seq<State>, actions: seq<Action>)
    requires ValidConfig(cfg) && IsRun(cfg, states, actions)
    ensures |actions| <= Measure(cfg, states[0]) + 4 * SpuriousIn(actions)
  {
    var ranks := seq(|states|, i requires 0 <= i < |states| => Measure(cfg, states[i]));
    forall j | 0 <= j < |actions|
      ensures ranks[j + 1] + 1 <= ranks[j] + (if IsSpurious(actions[j]) then 4 else 0)
    {
      RunStepDescends(cfg, states, actions, j);
    }
    RanksDescend(ranks, actions, |actions|);
    assert actions[..|actions|] == actions;
  }

  /** The longest a run can be, in closed form. */
  function Bound(cfg: Config): nat {
    (2 * TaskCost(cfg) * cfg.tasks + 9 + cfg.tasks) * cfg.rounds + WakeCost(cfg) + 5 * cfg.workers + 6 + cfg.tasks
  }

  lemma InitMainRank(cfg: Config)
    requires ValidConfig(cfg)
    ensures MainRank(cfg, Init(cfg).m) == StopCost(cfg) + cfg.tasks + LaterRounds(cfg, cfg.rounds)
  {
    PhaseStarts(cfg, Init(cfg).m);
  }

  lemma AllRounds(cfg: Config)
    ensures LaterRounds(cfg, cfg.rounds) == (2 * TaskCost(cfg) * cfg.tasks + 9 + cfg.tasks) * cfg.rounds
  {
    SubmissionsAre(cfg, cfg.tasks);
    LaterRoundsAre(cfg, cfg.rounds);
  }

  lemma BoundParts(cfg: Config)
    ensures Bound(cfg) == LaterRounds(cfg, cfg.rounds) + StopCost(cfg) + cfg.tasks + 4 * cfg.workers
  {
    AllRounds(cfg);
  }

  lemma InitMeasure(cfg: Config)
    requires ValidConfig(cfg)
    ensures Measure(cfg, Init(cfg)) == Bound(cfg)
  {
    BoundParts(cfg);
    InitMainRank(cfg);
    SumConstant(NewWorkers(cfg.workers), WorkerRank, 4);
  }

  /** Every run is finite: its length is bounded by a function of the configuration and its spurious wakeups. */
  lemma RunsAreBounded(cfg: Config, states: seq<State>, actions: seq<Action>)
    requires ValidConfig(cfg) && IsRun(cfg, states, actions)
    ensures |actions| <= Bound(cfg) + 4 * SpuriousIn(actions)
  {
    RunDescends(cfg, states, actions);
    InitMeasure(cfg);
  }

  /**
   A run that only a spurious wakeup could prolong is complete: the program has returned with
   the schedule-independent checksum, and every worker has left an empty pool.
   */
  lemma MaximalRunsComplete(cfg: Config, states: seq<State>, actions: seq<Action>)
    requires ValidConfig(cfg) && IsRun(cfg, states, actions) && !CanStep(cfg, states[|actions|])
    ensures var s := states[|actions|];
      AllReturned(s) && s.queue == [] && s.outstanding == 0 && s.m.checksum == XorOfWork(cfg.work, cfg.tasks)
  {
    var s := states[|actions|];
    RunInv(cfg, states, actions, |actions|);
    CarriedTasksExist(cfg, s);
    NoDeadlock(cfg, s);
  }

  lemma ExtendRun(cfg: Config, states: seq<State>, actions: seq<Action>, a: Action, next: State)
    requires IsRun(cfg, states, actions) && Enabled(cfg, states[|actions|], a)
    requires next == Apply(cfg, states[|actions|], a)
    ensures IsRun(cfg, states + [next], actions + [a])
  {
  }

  lemma SpuriousAfter(actions: seq<Action>, a: Action)
    ensures SpuriousIn(actions + [a]) == SpuriousIn(actions) + (if IsSpurious(a) then 1 else 0)
  {
    assert (actions + [a])[..|actions|] == actions;
  }

  /**
   Whatever has happened so far: without any more spurious wakeups the run goes on to an end, and
   there the pool is drained, everybody has returned and the checksum is that of the tasks.
   */
  lemma {:induction false} EveryRunCompletes(cfg: Config, states: seq<State>, actions: seq<Action>)
    returns (states': seq<State>, actions': seq<Action>)
    requires ValidConfig(cfg) && IsRun(cfg, states, actions)
    ensures IsRun(cfg, states', actions') && states <= states' && actions <= actions'
    ensures SpuriousIn(actions') == SpuriousIn(actions)
    ensures var s := states'[|actions'|];
      && !CanStep(cfg, s) && AllReturned(s)
      && s.queue == [] && s.outstanding == 0 && s.m.checksum == XorOfWork(cfg.work, cfg.tasks)
    decreases Bound(cfg) + 4 * SpuriousIn(actions) - |actions|
  {
    var s := states[|actions|];
    if a :| Enabled(cfg, s, a) && !IsSpurious(a) {
      var next := Apply(cfg, s, a);
      ExtendRun(cfg, states, actions, a, next);
      SpuriousAfter(actions, a);
      RunsAreBounded(cfg, states + [next], actions + [a]);
      states', actions' := EveryRunCompletes(cfg, states + [next], actions + [a]);
    } else {
      states', actions' := states, actions;
      MaximalRunsComplete(cfg, states, actions);
    }
  }

  lemma CarriedTasksExist(cfg: Config, s: State)
    requires TasksOk(cfg, s)
    ensures |s.results| == |s.runs| == cfg.tasks
    ensures forall w :: 0 <= w < |s.ws| && s.ws[w].pc == WRun ==> s.ws[w].task < cfg.tasks
  {
    forall w | 0 <= w < |s.ws| && s.ws[w].pc == WRun ensures s.ws[w].task < cfg.tasks {
      assert Holding(s.ws[w].pc);
    }
  }
}
