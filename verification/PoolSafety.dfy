/** The inductive invariant of the thread pool, one conjunct at a time. */
module PoolSafety {
  import opened Word64
  import opened Folds
  import opened PoolProtocol

  // ---------- The mutex ----------

  predicate HoldsM(pc: MainPc) {
    pc == MCheck || pc == MSignal || pc == MUnlock || pc == MWaitCheck || pc == MWaitUnlock
    || pc == MStop || pc == MBroadcastEmpty || pc == MBroadcastFull || pc == MStopUnlock
  }

  predicate HoldsW(pc: WorkerPc) {
    pc == WCheck || pc == WSignal || pc == WUnlock || pc == WFinish || pc == WBroadcast
    || pc == WUnlockAgain || pc == WExit
  }

  ghost predicate LockOk(owner: Owner, m: Main, ws: seq<Worker>) {
    && (HoldsM(m.pc) <==> owner == OfMain)
    && (forall w :: 0 <= w < |ws| ==> (HoldsW(ws[w].pc) <==> owner == OfWorker(w)))
    && (owner.OfWorker? ==> owner.w < |ws|)
  }

  lemma LockKeptByMain(cfg: Config, s: State, wake: set<nat>)
    requires LockOk(s.owner, s.m, s.ws) && Enabled(cfg, s, StepMain(wake))
    ensures var s' := Apply(cfg, s, StepMain(wake)); LockOk(s'.owner, s'.m, s'.ws) && |s'.ws| == |s.ws|
  {
  }

  lemma LockKept(cfg: Config, s: State, a: Action)
    requires LockOk(s.owner, s.m, s.ws) && Enabled(cfg, s, a)
    ensures var s' := Apply(cfg, s, a); LockOk(s'.owner, s'.m, s'.ws) && |s'.ws| == |s.ws|
  {
    if a.StepMain? { LockKeptByMain(cfg, s, a.wake); }
  }

  // ---------- Where the main thread is ----------

  predicate Submitting(pc: MainPc) {
    pc == MLock || pc == MCheck || pc == MAsleepFull || pc == MRelock || pc == MSignal || pc == MUnlock
  }

  predicate Stopping(pc: MainPc) {
    pc == MBroadcastEmpty || pc == MBroadcastFull || pc == MStopUnlock || pc == MJoin || pc == MReturned
  }

  /** After the last round. */
  predicate Closing(pc: MainPc) { pc == MRead || pc == MStopLock || pc == MStop || Stopping(pc) }

  /** Phases in which no submitted task is unfinished. */
  predicate Quiet(pc: MainPc) {
    pc == MClear || pc == MWaitUnlock || pc == MRead || pc == MStopLock || pc == MStop || Stopping(pc)
  }

  ghost predicate MainOk(cfg: Config, m: Main, stop: bool) {
    && m.pc != MDie
    && m.round < cfg.rounds
    && (stop <==> Stopping(m.pc))
    && (m.pc == MClear || Submitting(m.pc) || m.pc == MRead ==> m.i < cfg.tasks)
    && (m.pc == MJoin ==> m.i < cfg.workers)
  }

  lemma MainKept(cfg: Config, s: State, a: Action)
    requires ValidConfig(cfg) && MainOk(cfg, s.m, s.stop) && Enabled(cfg, s, a)
    ensures var s' := Apply(cfg, s, a); MainOk(cfg, s'.m, s'.stop)
  {
  }

  // ---------- Outstanding tasks ----------

  /** Holding a task that is not yet counted as finished. */
  function Busy(w: Worker): nat {
    if w.pc == WSignal || w.pc == WUnlock || w.pc == WRun || w.pc == WLockAgain || w.pc == WFinish then 1 else 0
  }

  /** `outstanding` is the number of queued tasks plus the number of running ones. */
  ghost predicate CountOk(s: State) {
    && s.outstanding == |s.queue| + Sum(s.ws, Busy)
    && (Quiet(s.m.pc) ==> s.outstanding == 0)
  }

  lemma WakeSame(ws: seq<Worker>, wake: set<nat>)
    requires forall w :: w in wake ==> w < |ws| && ws[w].pc == WAsleep
    ensures Sum(WakeWorkers(ws, wake), Busy) == Sum(ws, Busy)
  {
    SumSame(ws, WakeWorkers(ws, wake), Busy);
  }

  lemma CountKeptByMain(cfg: Config, s: State, wake: set<nat>)
    requires MainOk(cfg, s.m, s.stop) && CountOk(s) && Enabled(cfg, s, StepMain(wake))
    ensures CountOk(Apply(cfg, s, StepMain(wake)))
  {
    if s.m.pc == MSignal {
      WakeSame(s.ws, wake);
    } else if s.m.pc == MBroadcastEmpty {
      WakeSame(s.ws, Sleepers(s.ws));
    } else {
      MainLeavesWorkers(cfg, s, wake);
    }
  }

  /** Elsewhere only a submission changes what the count depends on. */
  lemma MainLeavesWorkers(cfg: Config, s: State, wake: set<nat>)
    requires MainOk(cfg, s.m, s.stop) && Enabled(cfg, s, StepMain(wake))
    requires s.m.pc != MSignal && s.m.pc != MBroadcastEmpty
    ensures var s' := MainStep(cfg, s, wake);
      && s'.ws == s.ws && s'.outstanding - s.outstanding == |s'.queue| - |s.queue|
      && (Quiet(s'.m.pc) ==> s'.outstanding == s.outstanding && (Quiet(s.m.pc) || s.outstanding == 0))
  {
  }

  lemma CountKept(cfg: Config, s: State, a: Action)
    requires MainOk(cfg, s.m, s.stop) && CountOk(s) && Enabled(cfg, s, a)
    ensures CountOk(Apply(cfg, s, a))
  {
    var s' := Apply(cfg, s, a);
    match a
    case StepMain(wake) => CountKeptByMain(cfg, s, wake);
    case StepWorker(w) => CountKeptByWorker(cfg, s, w);
    case SpuriousMain =>
    case SpuriousWorker(w) => SumUpdate(s.ws, w, s'.ws[w], Busy);
  }

  lemma CountKeptByWorker(cfg: Config, s: State, w: nat)
    requires CountOk(s) && Enabled(cfg, s, StepWorker(w))
    ensures CountOk(WorkerStep(cfg, s, w))
  {
    WorkerCounts(cfg, s, w);
    SumUpdate(s.ws, w, WorkerStep(cfg, s, w).ws[w], Busy);
    SumAtLeast(s.ws, w, Busy);
  }

  /** A worker's step moves a task from the queue to the worker, or finishes one, or does neither. */
  lemma WorkerCounts(cfg: Config, s: State, w: nat)
    requires Enabled(cfg, s, StepWorker(w))
    ensures var s' := WorkerStep(cfg, s, w);
      && s'.ws == s.ws[w := s'.ws[w]]
      && s'.outstanding - s.outstanding == |s'.queue| - |s.queue| + Busy(s'.ws[w]) - Busy(s.ws[w])
      && s'.outstanding <= s.outstanding <= s'.outstanding + Busy(s.ws[w])
      && (Quiet(s'.m.pc) ==> Quiet(s.m.pc))
  {
  }

  // ---------- Nobody sleeps through a wakeup ----------

  function Rechecks(w: Worker): nat { if w.pc == WRelock || w.pc == WCheck then 1 else 0 }
  function Signals(w: Worker): nat { if w.pc == WSignal then 1 else 0 }
  function Broadcasts(w: Worker): nat { if w.pc == WBroadcast then 1 else 0 }

  predicate Sleeps(ws: seq<Worker>) { exists w :: 0 <= w < |ws| && ws[w].pc == WAsleep }

  /** While a worker sleeps, each queued task has a worker on its way or a signal still to come. */
  ghost predicate WorkersAwake(s: State) {
    Sleeps(s.ws) ==>
      && |s.queue| <= Sum(s.ws, Rechecks) + (if s.m.pc == MSignal then 1 else 0)
      && (!s.stop || s.m.pc == MBroadcastEmpty)
  }

  /** While the main thread sleeps, what it waits for has not happened or its wakeup is still to come. */
  ghost predicate MainAwake(cfg: Config, s: State) {
    && (s.m.pc == MAsleepFull ==> cfg.capacity <= |s.queue| + Sum(s.ws, Signals))
    && (s.m.pc == MAsleepDone ==> s.outstanding != 0 || Sum(s.ws, Broadcasts) > 0)
  }

  lemma WakeCounts(ws: seq<Worker>, wake: set<nat>)
    requires forall w :: w in wake ==> w < |ws| && ws[w].pc == WAsleep
    ensures Sum(WakeWorkers(ws, wake), Rechecks) >= Sum(ws, Rechecks) + (if wake == {} then 0 else 1)
  {
    var ws' := WakeWorkers(ws, wake);
    if wake == {} {
      SumMonotone(ws, ws', Rechecks);
    } else {
      var w :| w in wake;
      SumGains(ws, ws', Rechecks, w, 1);
    }
  }

  lemma WorkersAwakeByMain(cfg: Config, s: State, wake: set<nat>)
    requires MainOk(cfg, s.m, s.stop) && WorkersAwake(s) && Enabled(cfg, s, StepMain(wake))
    ensures WorkersAwake(Apply(cfg, s, StepMain(wake)))
  {
    var s' := Apply(cfg, s, StepMain(wake));
    if s.m.pc == MSignal {
      WakeCounts(s.ws, wake);
      if wake == {} { assert !Sleeps(s'.ws); }
    } else if s.m.pc == MBroadcastEmpty {
      assert !Sleeps(s'.ws);
    }
  }

  lemma WorkersAwakeByWorker(cfg: Config, s: State, w: nat)
    requires LockOk(s.owner, s.m, s.ws) && WorkersAwake(s) && Enabled(cfg, s, StepWorker(w))
    ensures WorkersAwake(Apply(cfg, s, StepWorker(w)))
  {
    var s' := Apply(cfg, s, StepWorker(w));
    SumUpdate(s.ws, w, s'.ws[w], Rechecks);
    if Sleeps(s'.ws) && s'.ws[w].pc != WAsleep {
      SleptBefore(s.ws, w, s'.ws[w]);
      TakerRechecked(cfg, s, w);
    }
  }

  lemma SleptBefore(ws: seq<Worker>, w: nat, me: Worker)
    requires w < |ws| && me.pc != WAsleep && Sleeps(ws[w := me])
    ensures Sleeps(ws)
  {
    var k :| 0 <= k < |ws| && ws[w := me][k].pc == WAsleep;
    assert ws[k].pc == WAsleep;
  }

  /** A worker that goes on takes a task for each recheck it gives up. */
  lemma TakerRechecked(cfg: Config, s: State, w: nat)
    requires Enabled(cfg, s, StepWorker(w)) && WorkerStep(cfg, s, w).ws[w].pc != WAsleep
    ensures var s' := WorkerStep(cfg, s, w);
      && s'.ws == s.ws[w := s'.ws[w]] && s'.stop == s.stop && (s'.m.pc == MSignal <==> s.m.pc == MSignal)
      && (s'.m.pc == MBroadcastEmpty <==> s.m.pc == MBroadcastEmpty)
      && (|s'.queue| + Rechecks(s.ws[w]) <= |s.queue| + Rechecks(s'.ws[w]) || (s.stop && s.queue == []))
  {
  }

  lemma WorkersAwakeKept(cfg: Config, s: State, a: Action)
    requires LockOk(s.owner, s.m, s.ws) && MainOk(cfg, s.m, s.stop) && WorkersAwake(s) && Enabled(cfg, s, a)
    ensures WorkersAwake(Apply(cfg, s, a))
  {
    match a
    case StepMain(wake) => WorkersAwakeByMain(cfg, s, wake);
    case StepWorker(w) => WorkersAwakeByWorker(cfg, s, w);
    case SpuriousMain =>
    case SpuriousWorker(w) => SumUpdate(s.ws, w, s.ws[w].(pc := WRelock), Rechecks);
  }

  lemma MainAwakeByMain(cfg: Config, s: State, wake: set<nat>)
    requires MainAwake(cfg, s) && MainOk(cfg, s.m, s.stop) && Enabled(cfg, s, StepMain(wake))
    ensures MainAwake(cfg, MainStep(cfg, s, wake))
  {
  }

  lemma MainAwakeByWorker(cfg: Config, s: State, w: nat)
    requires LockOk(s.owner, s.m, s.ws) && MainAwake(cfg, s) && Enabled(cfg, s, StepWorker(w))
    ensures MainAwake(cfg, WorkerStep(cfg, s, w))
  {
    var s' := WorkerStep(cfg, s, w);
    SumUpdate(s.ws, w, s'.ws[w], Signals);
    SumUpdate(s.ws, w, s'.ws[w], Broadcasts);
    SumAtLeast(s'.ws, w, Broadcasts);
  }

  lemma MainAwakeKept(cfg: Config, s: State, a: Action)
    requires LockOk(s.owner, s.m, s.ws) && MainAwake(cfg, s) && Enabled(cfg, s, a)
    requires MainOk(cfg, s.m, s.stop)
    ensures MainAwake(cfg, Apply(cfg, s, a))
  {
    var s' := Apply(cfg, s, a);
    match a
    case StepMain(wake) => MainAwakeByMain(cfg, s, wake);
    case StepWorker(w) => MainAwakeByWorker(cfg, s, w);
    case SpuriousMain =>
    case SpuriousWorker(w) =>
      SumUpdate(s.ws, w, s'.ws[w], Signals);
      SumUpdate(s.ws, w, s'.ws[w], Broadcasts);
  }

  // ---------- Workers that leave ----------

  ghost predicate ExitOk(ws: seq<Worker>, stop: bool) {
    forall w :: 0 <= w < |ws| && (ws[w].pc == WExit || ws[w].pc == WReturned) ==> stop
  }

  lemma ExitKept(cfg: Config, s: State, a: Action)
    requires ExitOk(s.ws, s.stop) && Enabled(cfg, s, a)
    ensures var s' := Apply(cfg, s, a); ExitOk(s'.ws, s'.stop)
  {
  }

  // ---------- Each task runs once ----------

  /** Carrying a task that has not run yet. */
  predicate Holding(pc: WorkerPc) { pc == WSignal || pc == WUnlock || pc == WRun }

  predicate Held(ws: seq<Worker>, t: nat) {
    exists w :: 0 <= w < |ws| && Holding(ws[w].pc) && ws[w].task == t
  }

  /** Tasks of the current round submitted so far, and slots cleared for it. */
  function Submitted(cfg: Config, m: Main): nat {
    if m.pc == MClear then 0
    else if m.pc == MSignal || m.pc == MUnlock then m.i + 1
    else if Submitting(m.pc) then m.i
    else cfg.tasks
  }

  function Cleared(cfg: Config, m: Main): nat { if m.pc == MClear then m.i else cfg.tasks }

  /** Queued and carried tasks are distinct tasks of this round. */
  ghost predicate DistinctOk(submitted: nat, queue: seq<nat>, ws: seq<Worker>) {
    && (forall j :: 0 <= j < |queue| ==> queue[j] < submitted)
    && (forall j, k :: 0 <= j < k < |queue| ==> queue[j] != queue[k])
    && (forall w :: 0 <= w < |ws| && Holding(ws[w].pc) ==> ws[w].task < submitted && ws[w].task !in queue)
    && (forall w, v :: 0 <= w < v < |ws| && Holding(ws[w].pc) && Holding(ws[v].pc) ==> ws[w].task != ws[v].task)
  }

  predicate Ran(submitted: nat, queue: seq<nat>, ws: seq<Worker>, t: nat) {
    t < submitted && t !in queue && !Held(ws, t)
  }

  /** A submitted task that is neither queued nor carried has run exactly once; the others have not. */
  ghost predicate ResultsOk(cfg: Config, submitted: nat, cleared: nat, queue: seq<nat>, ws: seq<Worker>,
                            results: seq<nat>, runs: seq<nat>) {
    && |results| == |runs| == cfg.tasks && submitted <= cfg.tasks && cleared <= cfg.tasks
    && forall t {:trigger results[t]} {:trigger runs[t]} :: 0 <= t < cleared ==>
         if Ran(submitted, queue, ws, t) then results[t] == cfg.work(t) && runs[t] == 1
         else results[t] == 0 && runs[t] == 0
  }

  ghost predicate TasksOk(cfg: Config, s: State) {
    && DistinctOk(Submitted(cfg, s.m), s.queue, s.ws)
    && ResultsOk(cfg, Submitted(cfg, s.m), Cleared(cfg, s.m), s.queue, s.ws, s.results, s.runs)
  }

  /** The workers change without picking up or dropping a task. */
  predicate SameHolders(ws: seq<Worker>, ws': seq<Worker>) {
    |ws'| == |ws| &&
    forall w :: 0 <= w < |ws| ==> (Holding(ws'[w].pc) <==> Holding(ws[w].pc)) && (Holding(ws[w].pc) ==> ws'[w].task == ws[w].task)
  }

  lemma SameHeld(ws: seq<Worker>, ws': seq<Worker>, t: nat)
    requires SameHolders(ws, ws')
    ensures Held(ws', t) <==> Held(ws, t)
  {
    if w :| 0 <= w < |ws| && Holding(ws[w].pc) && ws[w].task == t { assert Holding(ws'[w].pc); }
    if w :| 0 <= w < |ws'| && Holding(ws'[w].pc) && ws'[w].task == t { assert Holding(ws[w].pc); }
  }

  lemma MoveKeepsResults(cfg: Config, submitted: nat, cleared: nat, queue: seq<nat>, ws: seq<Worker>, ws': seq<Worker>,
                         results: seq<nat>, runs: seq<nat>)
    requires SameHolders(ws, ws') && DistinctOk(submitted, queue, ws)
    requires ResultsOk(cfg, submitted, cleared, queue, ws, results, runs)
    ensures DistinctOk(submitted, queue, ws')
    ensures ResultsOk(cfg, submitted, cleared, queue, ws', results, runs)
  {
    forall t {:trigger results[t]} | 0 <= t < cleared
      ensures Ran(submitted, queue, ws', t) <==> Ran(submitted, queue, ws, t)
    {
      SameHeld(ws, ws', t);
    }
  }

  lemma SubmitKeepsResults(cfg: Config, submitted: nat, queue: seq<nat>, ws: seq<Worker>, results: seq<nat>, runs: seq<nat>)
    requires submitted < cfg.tasks && DistinctOk(submitted, queue, ws)
    requires ResultsOk(cfg, submitted, cfg.tasks, queue, ws, results, runs)
    ensures DistinctOk(submitted + 1, queue + [submitted], ws)
    ensures ResultsOk(cfg, submitted + 1, cfg.tasks, queue + [submitted], ws, results, runs)
  {
    forall t {:trigger results[t]} | 0 <= t < cfg.tasks
      ensures Ran(submitted + 1, queue + [submitted], ws, t) <==> Ran(submitted, queue, ws, t)
    {
    }
  }

  lemma TakeKeepsResults(cfg: Config, submitted: nat, cleared: nat, queue: seq<nat>, ws: seq<Worker>, w: nat,
                         results: seq<nat>, runs: seq<nat>)
    requires w < |ws| && ws[w].pc == WCheck && queue != [] && DistinctOk(submitted, queue, ws)
    requires ResultsOk(cfg, submitted, cleared, queue, ws, results, runs)
    ensures var ws' := ws[w := Worker(WSignal, queue[0])];
      DistinctOk(submitted, queue[1..], ws') && ResultsOk(cfg, submitted, cleared, queue[1..], ws', results, runs)
  {
    var ws' := ws[w := Worker(WSignal, queue[0])];
    forall t {:trigger results[t]} | 0 <= t < cleared
      ensures Ran(submitted, queue[1..], ws', t) <==> Ran(submitted, queue, ws, t)
    {
      if t == queue[0] {
        assert Holding(ws'[w].pc) && ws'[w].task == t;
      } else {
        assert t in queue <==> t in queue[1..];
        if v :| 0 <= v < |ws| && Holding(ws[v].pc) && ws[v].task == t { assert ws'[v] == ws[v]; }
        if v :| 0 <= v < |ws'| && Holding(ws'[v].pc) && ws'[v].task == t { assert ws'[v] == ws[v]; }
      }
    }
  }

  lemma RunKeepsResults(cfg: Config, submitted: nat, queue: seq<nat>, ws: seq<Worker>, w: nat,
                        results: seq<nat>, runs: seq<nat>)
    requires w < |ws| && ws[w].pc == WRun && DistinctOk(submitted, queue, ws)
    requires ResultsOk(cfg, submitted, cfg.tasks, queue, ws, results, runs)
    ensures var t, ws' := ws[w].task, ws[w := ws[w].(pc := WLockAgain)];
      && t < cfg.tasks && DistinctOk(submitted, queue, ws')
      && ResultsOk(cfg, submitted, cfg.tasks, queue, ws', results[t := cfg.work(t)], runs[t := runs[t] + 1])
  {
    var task, ws' := ws[w].task, ws[w := ws[w].(pc := WLockAgain)];
    forall t {:trigger results[t]} | 0 <= t < cfg.tasks
      ensures Ran(submitted, queue, ws', t) <==> Ran(submitted, queue, ws, t) || t == task
    {
      if v :| 0 <= v < |ws'| && Holding(ws'[v].pc) && ws'[v].task == t { assert ws'[v] == ws[v]; }
      if t != task {
        if v :| 0 <= v < |ws| && Holding(ws[v].pc) && ws[v].task == t { assert ws'[v] == ws[v]; }
      }
    }
    assert Held(ws, task);
  }

  /** With nothing outstanding, nothing is queued and nobody carries a task. */
  lemma NothingHeld(s: State)
    requires CountOk(s) && s.outstanding == 0
    ensures s.queue == [] && forall w :: 0 <= w < |s.ws| ==> Busy(s.ws[w]) == 0
  {
    SumZero(s.ws, Busy);
  }

  lemma ClearKeepsResults(cfg: Config, ws: seq<Worker>, i: nat, results: seq<nat>, runs: seq<nat>)
    requires i < cfg.tasks && ResultsOk(cfg, 0, i, [], ws, results, runs)
    ensures ResultsOk(cfg, 0, i + 1, [], ws, results[i := 0], runs[i := 0])
  {
  }

  lemma NewRound(cfg: Config, ws: seq<Worker>, submitted: nat, cleared: nat, results: seq<nat>, runs: seq<nat>)
    requires ResultsOk(cfg, submitted, cleared, [], ws, results, runs)
    requires forall w :: 0 <= w < |ws| ==> Busy(ws[w]) == 0
    ensures DistinctOk(0, [], ws) && ResultsOk(cfg, 0, 0, [], ws, results, runs)
  {
  }

  /** After the last slot is cleared nothing is submitted yet. */
  lemma TasksKeptByClear(cfg: Config, s: State, wake: set<nat>)
    requires ValidConfig(cfg) && MainOk(cfg, s.m, s.stop) && CountOk(s) && TasksOk(cfg, s)
    requires Enabled(cfg, s, StepMain(wake)) && s.m.pc == MClear
    ensures TasksOk(cfg, Apply(cfg, s, StepMain(wake)))
  {
    NothingHeld(s);
    ClearKeepsResults(cfg, s.ws, s.m.i, s.results, s.runs);
  }

  lemma TasksKeptByReturn(cfg: Config, s: State, wake: set<nat>)
    requires ValidConfig(cfg) && MainOk(cfg, s.m, s.stop) && CountOk(s) && TasksOk(cfg, s)
    requires Enabled(cfg, s, StepMain(wake)) && s.m.pc == MWaitUnlock
    ensures TasksOk(cfg, Apply(cfg, s, StepMain(wake)))
  {
    NothingHeld(s);
    NewRound(cfg, s.ws, cfg.tasks, cfg.tasks, s.results, s.runs);
  }

  /** Steps of the main thread that leave the tasks alone do not change what counts as submitted. */
  lemma SubmittedStays(cfg: Config, s: State, wake: set<nat>)
    requires ValidConfig(cfg) && MainOk(cfg, s.m, s.stop) && Enabled(cfg, s, StepMain(wake))
    requires s.m.pc != MClear && s.m.pc != MWaitUnlock && s.m.pc != MCheck
    ensures var s' := Apply(cfg, s, StepMain(wake));
      && Submitted(cfg, s'.m) == Submitted(cfg, s.m) && Cleared(cfg, s'.m) == Cleared(cfg, s.m)
      && s'.queue == s.queue && s'.results == s.results && s'.runs == s.runs && SameHolders(s.ws, s'.ws)
  {
  }

  lemma TasksKeptByMain(cfg: Config, s: State, wake: set<nat>)
    requires ValidConfig(cfg) && MainOk(cfg, s.m, s.stop) && CountOk(s) && TasksOk(cfg, s)
    requires Enabled(cfg, s, StepMain(wake))
    ensures TasksOk(cfg, Apply(cfg, s, StepMain(wake)))
  {
    var s' := Apply(cfg, s, StepMain(wake));
    var n := Submitted(cfg, s.m);
    if s.m.pc == MClear {
      TasksKeptByClear(cfg, s, wake);
    } else if s.m.pc == MWaitUnlock {
      TasksKeptByReturn(cfg, s, wake);
    } else if s.m.pc == MCheck {
      SubmitKeepsResults(cfg, n, s.queue, s.ws, s.results, s.runs);
    } else {
      SubmittedStays(cfg, s, wake);
      MoveKeepsResults(cfg, n, Cleared(cfg, s.m), s.queue, s.ws, s'.ws, s.results, s.runs);
    }
  }

  lemma SubmittedSame(cfg: Config, s: State, w: nat)
    requires Enabled(cfg, s, StepWorker(w))
    ensures var s' := Apply(cfg, s, StepWorker(w));
      Submitted(cfg, s'.m) == Submitted(cfg, s.m) && Cleared(cfg, s'.m) == Cleared(cfg, s.m)
  {
  }

  lemma HoldersSame(cfg: Config, s: State, w: nat)
    requires Enabled(cfg, s, StepWorker(w)) && s.ws[w].pc != WRun && (s.ws[w].pc == WCheck ==> s.queue == [])
    ensures var s' := Apply(cfg, s, StepWorker(w));
      s'.queue == s.queue && s'.results == s.results && s'.runs == s.runs && SameHolders(s.ws, s'.ws)
  {
  }

  lemma TasksKeptByWorker(cfg: Config, s: State, w: nat)
    requires ValidConfig(cfg) && MainOk(cfg, s.m, s.stop) && CountOk(s) && TasksOk(cfg, s)
    requires Enabled(cfg, s, StepWorker(w))
    ensures TasksOk(cfg, Apply(cfg, s, StepWorker(w)))
  {
    var s' := Apply(cfg, s, StepWorker(w));
    var n, c := Submitted(cfg, s.m), Cleared(cfg, s.m);
    SubmittedSame(cfg, s, w);
    if s.ws[w].pc == WCheck && s.queue != [] {
      TakeKeepsResults(cfg, n, c, s.queue, s.ws, w, s.results, s.runs);
    } else if s.ws[w].pc == WRun {
      if s.m.pc == MClear { NothingHeld(s); }
      RunKeepsResults(cfg, n, s.queue, s.ws, w, s.results, s.runs);
    } else {
      HoldersSame(cfg, s, w);
      MoveKeepsResults(cfg, n, c, s.queue, s.ws, s'.ws, s.results, s.runs);
    }
  }

  lemma TasksKept(cfg: Config, s: State, a: Action)
    requires ValidConfig(cfg) && MainOk(cfg, s.m, s.stop) && CountOk(s) && TasksOk(cfg, s)
    requires Enabled(cfg, s, a)
    ensures TasksOk(cfg, Apply(cfg, s, a))
  {
    var s' := Apply(cfg, s, a);
    match a
    case StepMain(wake) => TasksKeptByMain(cfg, s, wake);
    case StepWorker(w) => TasksKeptByWorker(cfg, s, w);
    case SpuriousMain =>
    case SpuriousWorker(_) =>
      MoveKeepsResults(cfg, Submitted(cfg, s.m), Cleared(cfg, s.m), s.queue, s.ws, s'.ws, s.results, s.runs);
  }

  // ---------- The checksum ----------

  /** The exclusive-or of the first `n` task values. */
  function XorOfWork(work: nat -> nat, n: nat): nat {
    if n == 0 then 0 else BitXor(XorOfWork(work, n - 1), work(n - 1))
  }

  ghost predicate ChecksumOk(cfg: Config, m: Main) {
    m.checksum ==
      if m.pc == MRead then XorOfWork(cfg.work, m.i)
      else if m.pc == MStopLock || m.pc == MStop || Stopping(m.pc) then XorOfWork(cfg.work, cfg.tasks)
      else 0
  }

  lemma ReadAdds(cfg: Config, m: Main, value: nat, m': Main)
    requires m.pc == MRead && m.i < cfg.tasks && ChecksumOk(cfg, m) && value == cfg.work(m.i)
    requires m'.pc == (if m.i + 1 < cfg.tasks then MRead else MStopLock) && m'.i == m.i + 1
    requires m'.checksum == BitXor(m.checksum, value)
    ensures ChecksumOk(cfg, m')
  {
    assert XorOfWork(cfg.work, m.i + 1) == BitXor(XorOfWork(cfg.work, m.i), cfg.work(m.i));
  }

  /** Nobody else does more to the main thread than wake it. */
  lemma OthersWakeMain(cfg: Config, s: State, a: Action)
    requires Enabled(cfg, s, a) && !a.StepMain?
    ensures var m := Apply(cfg, s, a).m;
      m == s.m || (m == s.m.(pc := m.pc) && !Closing(s.m.pc) && !Closing(m.pc))
  {
  }

  lemma ChecksumByPc(cfg: Config, m: Main, m': Main)
    requires ChecksumOk(cfg, m)
    requires m' == m || (m' == m.(pc := m'.pc) && !Closing(m.pc) && !Closing(m'.pc))
    ensures ChecksumOk(cfg, m')
  {
  }

  lemma ChecksumKeptByMain(cfg: Config, s: State, wake: set<nat>)
    requires ChecksumOk(cfg, s.m) && Enabled(cfg, s, StepMain(wake)) && s.m.pc != MRead
    requires s.m.pc == MCheck ==> !s.stop
    ensures ChecksumOk(cfg, MainStep(cfg, s, wake).m)
  {
    assert XorOfWork(cfg.work, 0) == 0;
  }

  lemma ChecksumKeptByRead(cfg: Config, s: State, wake: set<nat>)
    requires MainOk(cfg, s.m, s.stop) && ChecksumOk(cfg, s.m) && Enabled(cfg, s, StepMain(wake)) && s.m.pc == MRead
    requires s.results[s.m.i] == cfg.work(s.m.i)
    ensures ChecksumOk(cfg, MainStep(cfg, s, wake).m)
  {
    ReadAdds(cfg, s.m, s.results[s.m.i], MainStep(cfg, s, wake).m);
  }

  lemma ChecksumKeptByOthers(cfg: Config, s: State, a: Action)
    requires ChecksumOk(cfg, s.m) && Enabled(cfg, s, a) && !a.StepMain?
    ensures ChecksumOk(cfg, Apply(cfg, s, a).m)
  {
    OthersWakeMain(cfg, s, a);
    ChecksumByPc(cfg, s.m, Apply(cfg, s, a).m);
  }

  lemma ChecksumKept(cfg: Config, s: State, a: Action)
    requires MainOk(cfg, s.m, s.stop) && ChecksumOk(cfg, s.m) && Enabled(cfg, s, a)
    requires s.m.pc == MRead ==> s.m.i < |s.results| && s.results[s.m.i] == cfg.work(s.m.i)
    ensures ChecksumOk(cfg, Apply(cfg, s, a).m)
  {
    if a.StepMain? {
      if s.m.pc == MRead {
        ChecksumKeptByRead(cfg, s, a.wake);
      } else {
        ChecksumKeptByMain(cfg, s, a.wake);
      }
    } else {
      ChecksumKeptByOthers(cfg, s, a);
    }
  }

  /** In a quiet phase after the submissions, every task of the round has run. */
  lemma AllRan(cfg: Config, s: State, t: nat)
    requires CountOk(s) && TasksOk(cfg, s) && Quiet(s.m.pc) && s.m.pc != MClear && t < cfg.tasks
    ensures s.results[t] == cfg.work(t) && s.runs[t] == 1
  {
    NothingHeld(s);
    assert Ran(Submitted(cfg, s.m), s.queue, s.ws, t);
  }

  // ---------- All together ----------

  /** Everything that decides who may sleep and who must be awake. */
  ghost predicate WaitingOk(cfg: Config, s: State) {
    && |s.ws| == cfg.workers
    && LockOk(s.owner, s.m, s.ws)
    && MainOk(cfg, s.m, s.stop)
    && CountOk(s)
    && WorkersAwake(s) && MainAwake(cfg, s)
    && ExitOk(s.ws, s.stop)
  }

  ghost predicate Inv(cfg: Config, s: State) {
    WaitingOk(cfg, s) && TasksOk(cfg, s) && ChecksumOk(cfg, s.m)
  }

  lemma InitInv(cfg: Config)
    requires ValidConfig(cfg)
    ensures Inv(cfg, Init(cfg))
  {
    SumZero(Init(cfg).ws, Busy);
  }

  lemma StepInv(cfg: Config, s: State, a: Action)
    requires ValidConfig(cfg) && Inv(cfg, s) && Enabled(cfg, s, a)
    ensures Inv(cfg, Apply(cfg, s, a))
  {
    LockKept(cfg, s, a);
    MainKept(cfg, s, a);
    CountKept(cfg, s, a);
    WorkersAwakeKept(cfg, s, a);
    MainAwakeKept(cfg, s, a);
    ExitKept(cfg, s, a);
    TasksKept(cfg, s, a);
    if s.m.pc == MRead { AllRan(cfg, s, s.m.i); }
    ChecksumKept(cfg, s, a);
  }

  lemma {:induction false} RunInv(cfg: Config, states: seq<State>, actions: seq<Action>, i: nat)
    requires ValidConfig(cfg) && IsRun(cfg, states, actions) && i < |states|
    ensures Inv(cfg, states[i])
  {
    if i == 0 {
      InitInv(cfg);
    } else {
      RunInv(cfg, states, actions, i - 1);
      StepInv(cfg, states[i - 1], actions[i - 1]);
    }
  }
}
