/**
 The store-buffering harness under x86-TSO: three threads with first-in first-out store
 buffers, one shared memory, and two three-party barriers around each trial.

 A load sees the thread's own newest buffered store to the location, else memory. A buffered
 store reaches memory in a drain step of its own. A fence and a barrier arrival need an empty
 buffer. In seqcst mode the compiled code has a fence between the store and the load; in the
 other two modes the code is the same as for relaxed.
 */
module SbProtocol {

  datatype Mode = Relaxed | AcqRel | SeqCst

  datatype Config = Config(mode: Mode, warmup: int, iterations: int)

  /** The number of trials; a negative sum runs none. */
  function Total(cfg: Config): nat {
    if cfg.warmup + cfg.iterations > 0 then cfg.warmup + cfg.iterations else 0
  }

  datatype Loc = X | Y | R0 | R1
  datatype Entry = Entry(loc: Loc, value: int)
  datatype Memory = Memory(x: int, y: int, r0: int, r1: int)

  function Get(mem: Memory, l: Loc): int {
    match l
    case X => mem.x
    case Y => mem.y
    case R0 => mem.r0
    case R1 => mem.r1
  }

  function Set(mem: Memory, e: Entry): Memory {
    match e.loc
    case X => mem.(x := e.value)
    case Y => mem.(y := e.value)
    case R0 => mem.(r0 := e.value)
    case R1 => mem.(r1 := e.value)
  }

  /** A load: the newest own buffered store, else memory. */
  function Load(mem: Memory, buf: seq<Entry>, l: Loc): int {
    if buf == [] then Get(mem, l)
    else if buf[|buf| - 1].loc == l then buf[|buf| - 1].value
    else Load(mem, buf[..|buf| - 1], l)
  }

  /** `generation` counts completed rounds of the barrier, `arrived` the waiters of the current one. */
  datatype Barrier = Barrier(arrived: nat, generation: nat)

  datatype WorkerPc =
    | StartArrive | StartWait | StoreOwn | Fence | LoadOther | StoreResult | EndArrive | EndWait | Returned
  datatype Worker = Worker(pc: WorkerPc, trial: nat, ticket: nat, v: int, buf: seq<Entry>)

  datatype MainPc =
    | ResetX | ResetY | ResetR0 | ResetR1 | MStartArrive | MStartWait | MEndArrive | MEndWait
    | ReadR0 | ReadR1 | Classify | Unexpected | MJoin | MReturned
  datatype Counts = Counts(c00: nat, c01: nat, c10: nat, c11: nat)
  datatype Main = Main(pc: MainPc, trial: nat, ticket: nat, r0: int, r1: int, counts: Counts, buf: seq<Entry>)

  datatype State = State(mem: Memory, ws: seq<Worker>, m: Main, start: Barrier, end: Barrier)

  datatype Action = StepWorker(t: nat) | StepMain | DrainWorker(t: nat) | DrainMain

  /** Thread 0 stores x, loads y and reports in r0; thread 1 the other way round. */
  function Own(t: nat): Loc { if t == 0 then X else Y }
  function Other(t: nat): Loc { if t == 0 then Y else X }
  function Result(t: nat): Loc { if t == 0 then R0 else R1 }

  function FirstWorkerPc(cfg: Config, trial: nat): WorkerPc { if trial < Total(cfg) then StartArrive else Returned }
  function FirstMainPc(cfg: Config, trial: nat): MainPc { if trial < Total(cfg) then ResetX else MJoin }

  function Init(cfg: Config): State {
    var w := Worker(FirstWorkerPc(cfg, 0), 0, 0, 0, []);
    State(Memory(0, 0, -1, -1), [w, w], Main(FirstMainPc(cfg, 0), 0, 0, 0, 0, Counts(0, 0, 0, 0), []),
          Barrier(0, 0), Barrier(0, 0))
  }

  /** The third arrival completes the barrier and goes on; the others wait. */
  function Arrive(b: Barrier): Barrier {
    if b.arrived == 2 then Barrier(0, b.generation + 1) else Barrier(b.arrived + 1, b.generation)
  }

  predicate Enabled(s: State, a: Action) {
    match a
    case StepWorker(t) => t < |s.ws| && (
      match s.ws[t].pc
      case StartArrive => s.ws[t].buf == []
      case StartWait => s.start.generation != s.ws[t].ticket
      case Fence => s.ws[t].buf == []
      case EndArrive => s.ws[t].buf == []
      case EndWait => s.end.generation != s.ws[t].ticket
      case Returned => false
      case _ => true)
    case StepMain => (
      match s.m.pc
      case MStartArrive => s.m.buf == []
      case MStartWait => s.start.generation != s.m.ticket
      case MEndArrive => s.m.buf == []
      case MEndWait => s.end.generation != s.m.ticket
      case MJoin => forall t :: 0 <= t < |s.ws| ==> s.ws[t].pc == Returned
      case Unexpected => false
      case MReturned => false
      case _ => true)
    case DrainWorker(t) => t < |s.ws| && s.ws[t].buf != []
    case DrainMain => s.m.buf != []
  }

  function NextTrial(cfg: Config, w: Worker): Worker {
    w.(pc := FirstWorkerPc(cfg, w.trial + 1), trial := w.trial + 1)
  }

  function WorkerStep(cfg: Config, s: State, t: nat): State
    requires Enabled(s, StepWorker(t))
  {
    var w := s.ws[t];
    match w.pc
    case StartArrive =>
      s.(start := Arrive(s.start),
         ws := s.ws[t := w.(pc := if s.start.arrived == 2 then StoreOwn else StartWait, ticket := s.start.generation)])
    case StartWait => s.(ws := s.ws[t := w.(pc := StoreOwn)])
    case StoreOwn =>
      s.(ws := s.ws[t := w.(pc := if cfg.mode == SeqCst then Fence else LoadOther, buf := w.buf + [Entry(Own(t), 1)])])
    case Fence => s.(ws := s.ws[t := w.(pc := LoadOther)])
    case LoadOther => s.(ws := s.ws[t := w.(pc := StoreResult, v := Load(s.mem, w.buf, Other(t)))])
    case StoreResult => s.(ws := s.ws[t := w.(pc := EndArrive, buf := w.buf + [Entry(Result(t), w.v)])])
    case EndArrive =>
      s.(end := Arrive(s.end),
         ws := s.ws[t := if s.end.arrived == 2 then NextTrial(cfg, w).(ticket := s.end.generation)
                         else w.(pc := EndWait, ticket := s.end.generation)])
    case EndWait => s.(ws := s.ws[t := NextTrial(cfg, w)])
    case Returned => s
  }

  /** The chain of comparisons at the end of a measured trial. */
  function Tally(c: Counts, r0: int, r1: int): Counts {
    if r0 == 0 && r1 == 0 then c.(c00 := c.c00 + 1)
    else if r0 == 0 && r1 == 1 then c.(c01 := c.c01 + 1)
    else if r0 == 1 && r1 == 0 then c.(c10 := c.c10 + 1)
    else if r0 == 1 && r1 == 1 then c.(c11 := c.c11 + 1)
    else c
  }

  predicate Expected(r0: int, r1: int) { (r0 == 0 || r0 == 1) && (r1 == 0 || r1 == 1) }

  function MainNextTrial(cfg: Config, m: Main): Main {
    m.(pc := FirstMainPc(cfg, m.trial + 1), trial := m.trial + 1)
  }

  function AfterEnd(cfg: Config, m: Main): Main {
    if m.trial >= cfg.warmup then m.(pc := ReadR0) else MainNextTrial(cfg, m)
  }

  function MainStep(cfg: Config, s: State): State
    requires Enabled(s, StepMain)
  {
    var m := s.m;
    match m.pc
    case ResetX => s.(m := m.(pc := ResetY, buf := m.buf + [Entry(X, 0)]))
    case ResetY => s.(m := m.(pc := ResetR0, buf := m.buf + [Entry(Y, 0)]))
    case ResetR0 => s.(m := m.(pc := ResetR1, buf := m.buf + [Entry(R0, -1)]))
    case ResetR1 => s.(m := m.(pc := MStartArrive, buf := m.buf + [Entry(R1, -1)]))
    case MStartArrive =>
      s.(start := Arrive(s.start),
         m := m.(pc := if s.start.arrived == 2 then MEndArrive else MStartWait, ticket := s.start.generation))
    case MStartWait => s.(m := m.(pc := MEndArrive))
    case MEndArrive =>
      s.(end := Arrive(s.end),
         m := if s.end.arrived == 2 then AfterEnd(cfg, m).(ticket := s.end.generation)
              else m.(pc := MEndWait, ticket := s.end.generation))
    case MEndWait => s.(m := AfterEnd(cfg, m))
    case ReadR0 => s.(m := m.(pc := ReadR1, r0 := Load(s.mem, m.buf, R0)))
    case ReadR1 => s.(m := m.(pc := Classify, r1 := Load(s.mem, m.buf, R1)))
    case Classify =>
      s.(m := if Expected(m.r0, m.r1) then MainNextTrial(cfg, m).(counts := Tally(m.counts, m.r0, m.r1))
              else m.(pc := Unexpected))
    case MJoin => s.(m := m.(pc := MReturned))
    case Unexpected => s
    case MReturned => s
  }

  function Apply(cfg: Config, s: State, a: Action): State
    requires Enabled(s, a)
  {
    match a
    case StepWorker(t) => WorkerStep(cfg, s, t)
    case StepMain => MainStep(cfg, s)
    case DrainWorker(t) =>
      s.(mem := Set(s.mem, s.ws[t].buf[0]), ws := s.ws[t := s.ws[t].(buf := s.ws[t].buf[1..])])
    case DrainMain => s.(mem := Set(s.mem, s.m.buf[0]), m := s.m.(buf := s.m.buf[1..]))
  }

  ghost predicate IsRun(cfg: Config, states: seq<State>, actions: seq<Action>) {
    && |states| == |actions| + 1
    && states[0] == Init(cfg)
    && forall i :: 0 <= i < |actions| ==>
         Enabled(states[i], actions[i]) && states[i + 1] == Apply(cfg, states[i], actions[i])
  }
}
