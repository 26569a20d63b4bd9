/**
 The thread pool and the program that drives it, as a machine whose steps are pthread calls,
 single reads and writes of result slots, and task executions.

 The main thread clears the result slots, submits a round of tasks, waits for all of them,
 repeats for every round, reads the results, stops the pool and joins the workers. Signals wake
 any non-empty set of sleepers, if there are any; sleepers may also wake spuriously.
 */
module PoolProtocol {
  import opened Word64

  /** `work(t)` is what running task `t` stores in its slot: the task function is deterministic. */
  datatype Config = Config(workers: nat, tasks: nat, rounds: nat, capacity: nat, work: nat -> nat)

  /** What `parse_args` demands; there is one measured round after the warmup rounds. */
  predicate ValidConfig(cfg: Config) {
    cfg.workers > 0 && cfg.tasks > 0 && cfg.rounds > 0 && cfg.capacity > 0
  }

  datatype MainPc =
    | MClear
    | MLock | MCheck | MAsleepFull | MRelock | MSignal | MUnlock | MDie
    | MWaitLock | MWaitCheck | MAsleepDone | MWaitRelock | MWaitUnlock
    | MRead
    | MStopLock | MStop | MBroadcastEmpty | MBroadcastFull | MStopUnlock | MJoin | MReturned
  datatype WorkerPc =
    | WLock | WCheck | WAsleep | WRelock | WSignal | WUnlock | WRun
    | WLockAgain | WFinish | WBroadcast | WUnlockAgain | WExit | WReturned

  /** `i` counts slots cleared, tasks submitted, results read or workers joined, by phase. */
  datatype Main = Main(pc: MainPc, round: nat, i: nat, checksum: nat)
  datatype Worker = Worker(pc: WorkerPc, task: nat)
  datatype Owner = Free | OfMain | OfWorker(w: nat)

  /** `runs[t]` records how often task `t` has run in the current round. */
  datatype State = State(owner: Owner, queue: seq<nat>, outstanding: int, stop: bool,
                         results: seq<nat>, runs: seq<nat>, m: Main, ws: seq<Worker>)

  datatype Action =
    | StepMain(wake: set<nat>)
    | StepWorker(w: nat)
    | SpuriousMain
    | SpuriousWorker(w: nat)

  predicate IsSpurious(a: Action) { a.SpuriousMain? || a.SpuriousWorker? }

  function NewWorkers(n: nat): (ws: seq<Worker>)
    ensures |ws| == n && forall w :: 0 <= w < n ==> ws[w] == Worker(WLock, 0)
  {
    if n == 0 then [] else NewWorkers(n - 1) + [Worker(WLock, 0)]
  }

  function Zeros(n: nat): (s: seq<nat>)
    ensures |s| == n && forall t :: 0 <= t < n ==> s[t] == 0
  {
    if n == 0 then [] else Zeros(n - 1) + [0]
  }

  function Init(cfg: Config): State {
    State(Free, [], 0, false, Zeros(cfg.tasks), Zeros(cfg.tasks), Main(MClear, 0, 0, 0), NewWorkers(cfg.workers))
  }

  function Sleepers(ws: seq<Worker>): set<nat> {
    set w: nat | 0 <= w < |ws| && ws[w].pc == WAsleep
  }

  predicate SignalsWorkers(ws: seq<Worker>, wake: set<nat>) {
    && (forall w :: w in wake ==> w < |ws| && ws[w].pc == WAsleep)
    && (wake == {} ==> forall w :: 0 <= w < |ws| ==> ws[w].pc != WAsleep)
  }

  function WakeWorkers(ws: seq<Worker>, wake: set<nat>): seq<Worker> {
    seq(|ws|, w requires 0 <= w < |ws| => if w in wake then ws[w].(pc := WRelock) else ws[w])
  }

  predicate Enabled(cfg: Config, s: State, a: Action) {
    match a
    case StepMain(wake) => (
      match s.m.pc
      case MClear => s.m.i < |s.results| == |s.runs|
      case MLock => s.owner == Free
      case MRelock => s.owner == Free
      case MSignal => SignalsWorkers(s.ws, wake)
      case MWaitLock => s.owner == Free
      case MWaitRelock => s.owner == Free
      case MRead => s.m.i < |s.results|
      case MStopLock => s.owner == Free
      case MJoin => s.m.i < |s.ws| && s.ws[s.m.i].pc == WReturned
      case MAsleepFull => false
      case MAsleepDone => false
      case MDie => false
      case MReturned => false
      case _ => true)
    case StepWorker(w) => w < |s.ws| && (
      match s.ws[w].pc
      case WLock => s.owner == Free
      case WRelock => s.owner == Free
      case WLockAgain => s.owner == Free
      case WRun => s.ws[w].task < |s.results| == |s.runs|
      case WAsleep => false
      case WReturned => false
      case _ => true)
    case SpuriousMain => s.m.pc == MAsleepFull || s.m.pc == MAsleepDone
    case SpuriousWorker(w) => w < |s.ws| && s.ws[w].pc == WAsleep
  }

  function MainStep(cfg: Config, s: State, wake: set<nat>): State
    requires Enabled(cfg, s, StepMain(wake))
  {
    var m := s.m;
    match m.pc
    case MClear =>
      s.(results := s.results[m.i := 0], runs := s.runs[m.i := 0],
         m := if m.i + 1 < cfg.tasks then m.(i := m.i + 1) else m.(pc := MLock, i := 0))
    case MLock => s.(owner := OfMain, m := m.(pc := MCheck))
    case MRelock => s.(owner := OfMain, m := m.(pc := MCheck))
    case MCheck =>
      if |s.queue| == cfg.capacity && !s.stop then s.(owner := Free, m := m.(pc := MAsleepFull))
      else if s.stop then s.(owner := Free, m := m.(pc := MDie))
      else s.(queue := s.queue + [m.i], outstanding := s.outstanding + 1, m := m.(pc := MSignal))
    case MSignal => s.(ws := WakeWorkers(s.ws, wake), m := m.(pc := MUnlock))
    case MUnlock =>
      s.(owner := Free, m := m.(pc := if m.i + 1 < cfg.tasks then MLock else MWaitLock, i := m.i + 1))
    case MWaitLock => s.(owner := OfMain, m := m.(pc := MWaitCheck))
    case MWaitRelock => s.(owner := OfMain, m := m.(pc := MWaitCheck))
    case MWaitCheck =>
      if s.outstanding != 0 then s.(owner := Free, m := m.(pc := MAsleepDone))
      else s.(m := m.(pc := MWaitUnlock))
    case MWaitUnlock =>
      s.(owner := Free, m := if m.round + 1 < cfg.rounds then m.(pc := MClear, round := m.round + 1, i := 0)
                             else m.(pc := MRead, i := 0))
    case MRead =>
      s.(m := m.(pc := if m.i + 1 < cfg.tasks then MRead else MStopLock, i := m.i + 1,
                 checksum := BitXor(m.checksum, s.results[m.i])))
    case MStopLock => s.(owner := OfMain, m := m.(pc := MStop))
    case MStop => s.(stop := true, m := m.(pc := MBroadcastEmpty))
    case MBroadcastEmpty => s.(ws := WakeWorkers(s.ws, Sleepers(s.ws)), m := m.(pc := MBroadcastFull))
    case MBroadcastFull => s.(m := m.(pc := MStopUnlock))
    case MStopUnlock => s.(owner := Free, m := m.(pc := MJoin, i := 0))
    case MJoin => s.(m := m.(pc := if m.i + 1 < cfg.workers then MJoin else MReturned, i := m.i + 1))
    case _ => s
  }

  function WorkerStep(cfg: Config, s: State, w: nat): State
    requires Enabled(cfg, s, StepWorker(w))
  {
    var me := s.ws[w];
    match me.pc
    case WLock => s.(owner := OfWorker(w), ws := s.ws[w := me.(pc := WCheck)])
    case WRelock => s.(owner := OfWorker(w), ws := s.ws[w := me.(pc := WCheck)])
    case WCheck =>
      if |s.queue| == 0 && !s.stop then s.(owner := Free, ws := s.ws[w := me.(pc := WAsleep)])
      else if s.stop && |s.queue| == 0 then s.(ws := s.ws[w := me.(pc := WExit)])
      else s.(queue := s.queue[1..], ws := s.ws[w := Worker(WSignal, s.queue[0])])
    case WSignal =>
      s.(m := if s.m.pc == MAsleepFull then s.m.(pc := MRelock) else s.m, ws := s.ws[w := me.(pc := WUnlock)])
    case WUnlock => s.(owner := Free, ws := s.ws[w := me.(pc := WRun)])
    case WRun =>
      s.(results := s.results[me.task := cfg.work(me.task)], runs := s.runs[me.task := s.runs[me.task] + 1],
         ws := s.ws[w := me.(pc := WLockAgain)])
    case WLockAgain => s.(owner := OfWorker(w), ws := s.ws[w := me.(pc := WFinish)])
    case WFinish =>
      s.(outstanding := s.outstanding - 1,
         ws := s.ws[w := me.(pc := if s.outstanding - 1 == 0 then WBroadcast else WUnlockAgain)])
    case WBroadcast =>
      s.(m := if s.m.pc == MAsleepDone then s.m.(pc := MWaitRelock) else s.m, ws := s.ws[w := me.(pc := WUnlockAgain)])
    case WUnlockAgain => s.(owner := Free, ws := s.ws[w := me.(pc := WLock)])
    case WExit => s.(owner := Free, ws := s.ws[w := me.(pc := WReturned)])
    case _ => s
  }

  function Apply(cfg: Config, s: State, a: Action): State
    requires Enabled(cfg, s, a)
  {
    match a
    case StepMain(wake) => MainStep(cfg, s, wake)
    case StepWorker(w) => WorkerStep(cfg, s, w)
    case SpuriousMain => s.(m := s.m.(pc := if s.m.pc == MAsleepFull then MRelock else MWaitRelock))
    case SpuriousWorker(w) => s.(ws := s.ws[w := s.ws[w].(pc := WRelock)])
  }

  ghost predicate IsRun(cfg: Config, states: seq<State>, actions: seq<Action>) {
    && |states| == |actions| + 1
    && states[0] == Init(cfg)
    && forall i :: 0 <= i < |actions| ==>
         Enabled(cfg, states[i], actions[i]) && states[i + 1] == Apply(cfg, states[i], actions[i])
  }
}
