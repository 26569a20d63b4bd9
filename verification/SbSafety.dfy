/** The inductive invariant of the store-buffering harness. */
module SbSafety {
  import opened SbProtocol

  // ---------- Barriers ----------

  predicate InBody(pc: WorkerPc) {
    pc == StoreOwn || pc == Fence || pc == LoadOther || pc == StoreResult || pc == EndArrive
  }

  predicate Resetting(pc: MainPc) {
    pc == ResetX || pc == ResetY || pc == ResetR0 || pc == ResetR1 || pc == MStartArrive
  }

  predicate Reading(pc: MainPc) { pc == ReadR0 || pc == ReadR1 || pc == Classify || pc == Unexpected }

  /** Where a worker can be when the barriers have completed `begun` and `ended` rounds. */
  ghost predicate WorkerOk(cfg: Config, w: Worker, begun: nat, ended: nat) {
    && (w.pc != Returned ==> w.trial < Total(cfg))
    && match w.pc
       case StartArrive => begun == w.trial == ended
       case StartWait => w.ticket == w.trial == ended && w.trial <= begun <= w.trial + 1
       case EndWait => w.ticket == w.trial && begun == w.trial + 1 && w.trial <= ended <= w.trial + 1
       case Returned => w.trial == begun == ended == Total(cfg)
       case _ => begun == w.trial + 1 && ended == w.trial
  }

  ghost predicate MainOk(cfg: Config, m: Main, begun: nat, ended: nat) {
    && (m.pc != MJoin && m.pc != MReturned ==> m.trial < Total(cfg))
    && (Reading(m.pc) ==> m.trial >= cfg.warmup)
    && match m.pc
       case MStartWait => m.ticket == m.trial == ended && m.trial <= begun <= m.trial + 1
       case MEndArrive => begun == m.trial + 1 && ended == m.trial
       case MEndWait => m.ticket == m.trial && begun == m.trial + 1 && m.trial <= ended <= m.trial + 1
       case MJoin => m.trial == begun == ended == Total(cfg)
       case MReturned => m.trial == begun == ended == Total(cfg)
       case _ => if Resetting(m.pc) then begun == m.trial == ended else begun == m.trial + 1 == ended
  }

  function AtStart(pc: bool, trial: nat, generation: nat): nat { if pc && trial == generation then 1 else 0 }

  ghost predicate BarriersOk(cfg: Config, ws: seq<Worker>, m: Main, start: Barrier, end: Barrier) {
    && |ws| == 2
    && WorkerOk(cfg, ws[0], start.generation, end.generation)
    && WorkerOk(cfg, ws[1], start.generation, end.generation)
    && MainOk(cfg, m, start.generation, end.generation)
    && start.arrived == AtStart(ws[0].pc == StartWait, ws[0].trial, start.generation)
                        + AtStart(ws[1].pc == StartWait, ws[1].trial, start.generation)
                        + AtStart(m.pc == MStartWait, m.trial, start.generation)
    && end.arrived == AtStart(ws[0].pc == EndWait, ws[0].trial, end.generation)
                      + AtStart(ws[1].pc == EndWait, ws[1].trial, end.generation)
                      + AtStart(m.pc == MEndWait, m.trial, end.generation)
    && start.arrived < 3 && end.arrived < 3
  }

  lemma WorkerStarts(cfg: Config, s: State, t: nat)
    requires BarriersOk(cfg, s.ws, s.m, s.start, s.end) && Enabled(s, StepWorker(t)) && s.ws[t].pc == StartArrive
    ensures var s' := Apply(cfg, s, StepWorker(t)); BarriersOk(cfg, s'.ws, s'.m, s'.start, s'.end)
  {
    assert t == 0 || t == 1;
  }

  lemma WorkerEnds(cfg: Config, s: State, t: nat)
    requires BarriersOk(cfg, s.ws, s.m, s.start, s.end) && Enabled(s, StepWorker(t)) && s.ws[t].pc == EndArrive
    ensures var s' := Apply(cfg, s, StepWorker(t)); BarriersOk(cfg, s'.ws, s'.m, s'.start, s'.end)
  {
    assert t == 0 || t == 1;
  }

  lemma BarriersKeptByWorker(cfg: Config, s: State, t: nat)
    requires BarriersOk(cfg, s.ws, s.m, s.start, s.end) && Enabled(s, StepWorker(t))
    ensures var s' := Apply(cfg, s, StepWorker(t)); BarriersOk(cfg, s'.ws, s'.m, s'.start, s'.end)
  {
    assert t == 0 || t == 1;
    if s.ws[t].pc == StartArrive {
      WorkerStarts(cfg, s, t);
    } else if s.ws[t].pc == EndArrive {
      WorkerEnds(cfg, s, t);
    }
  }

  lemma MainStarts(cfg: Config, s: State)
    requires BarriersOk(cfg, s.ws, s.m, s.start, s.end) && Enabled(s, StepMain) && s.m.pc == MStartArrive
    ensures var s' := Apply(cfg, s, StepMain); BarriersOk(cfg, s'.ws, s'.m, s'.start, s'.end)
  {
  }

  lemma MainEnds(cfg: Config, s: State)
    requires BarriersOk(cfg, s.ws, s.m, s.start, s.end) && Enabled(s, StepMain) && s.m.pc == MEndArrive
    ensures var s' := Apply(cfg, s, StepMain); BarriersOk(cfg, s'.ws, s'.m, s'.start, s'.end)
  {
  }

  /** Elsewhere the main thread leaves the barriers alone. */
  lemma MainGoesOn(cfg: Config, s: State)
    requires Enabled(s, StepMain) && s.m.pc != MStartArrive && s.m.pc != MEndArrive
    ensures var s' := MainStep(cfg, s); s'.ws == s.ws && s'.start == s.start && s'.end == s.end
  {
  }

  /** The main thread's share of the barrier invariant. */
  ghost predicate MainCounted(cfg: Config, m: Main, m': Main, start: Barrier, end: Barrier) {
    && MainOk(cfg, m', start.generation, end.generation)
    && AtStart(m'.pc == MStartWait, m'.trial, start.generation)
       == AtStart(m.pc == MStartWait, m.trial, start.generation)
    && AtStart(m'.pc == MEndWait, m'.trial, end.generation) == AtStart(m.pc == MEndWait, m.trial, end.generation)
  }

  lemma MainCloses(cfg: Config, s: State)
    requires MainOk(cfg, s.m, s.start.generation, s.end.generation) && Enabled(s, StepMain)
    requires s.m.pc == MEndWait || s.m.pc == Classify
    ensures MainCounted(cfg, s.m, MainStep(cfg, s).m, s.start, s.end)
  {
  }

  lemma MainMovesOn(cfg: Config, s: State)
    requires MainOk(cfg, s.m, s.start.generation, s.end.generation) && Enabled(s, StepMain)
    requires s.m.pc != MStartArrive && s.m.pc != MEndArrive && s.m.pc != MEndWait && s.m.pc != Classify
    ensures MainCounted(cfg, s.m, MainStep(cfg, s).m, s.start, s.end)
  {
  }

  lemma BarriersKeptByMain(cfg: Config, s: State)
    requires BarriersOk(cfg, s.ws, s.m, s.start, s.end) && Enabled(s, StepMain)
    ensures var s' := Apply(cfg, s, StepMain); BarriersOk(cfg, s'.ws, s'.m, s'.start, s'.end)
  {
    if s.m.pc == MStartArrive {
      MainStarts(cfg, s);
    } else if s.m.pc == MEndArrive {
      MainEnds(cfg, s);
    } else {
      MainGoesOn(cfg, s);
      if s.m.pc == MEndWait || s.m.pc == Classify { MainCloses(cfg, s); } else { MainMovesOn(cfg, s); }
    }
  }

  lemma BarriersKept(cfg: Config, s: State, a: Action)
    requires BarriersOk(cfg, s.ws, s.m, s.start, s.end) && Enabled(s, a)
    ensures var s' := Apply(cfg, s, a); BarriersOk(cfg, s'.ws, s'.m, s'.start, s'.end)
  {
    match a
    case StepWorker(t) => BarriersKeptByWorker(cfg, s, t);
    case StepMain => BarriersKeptByMain(cfg, s);
    case DrainWorker(t) => BarriersKeptByDrain(cfg, s, t);
    case DrainMain =>
  }

  lemma BarriersKeptByDrain(cfg: Config, s: State, t: nat)
    requires BarriersOk(cfg, s.ws, s.m, s.start, s.end) && Enabled(s, DrainWorker(t))
    ensures var s' := Apply(cfg, s, DrainWorker(t)); BarriersOk(cfg, s'.ws, s'.m, s'.start, s'.end)
  {
    assert t == 0 || t == 1;
  }

  // ---------- Store buffers ----------

  /** The buffered stores of worker `t`: its own location first, then its result. */
  ghost predicate WorkerBufOk(mode: Mode, t: nat, w: Worker) {
    && (w.v == 0 || w.v == 1)
    && (w.pc == Fence || w.pc == LoadOther || w.pc == StoreResult || w.pc == EndArrive || w.buf == [])
    && |w.buf| <= (if w.pc == EndArrive then 2 else 1)
    && (forall j :: 0 <= j < |w.buf| ==> w.buf[j] == Entry(Own(t), 1) || w.buf[j] == Entry(Result(t), w.v))
    && (|w.buf| == 2 ==> w.buf[0].loc == Own(t))
    && (w.pc == EndArrive && w.buf != [] ==> w.buf[|w.buf| - 1].loc == Result(t))
    && (|w.buf| == 1 && w.pc != EndArrive ==> w.buf[0].loc == Own(t))
    && (mode == SeqCst && w.pc != Fence && w.buf != [] ==> w.buf[0].loc == Result(t))
  }

  /** The `i`-th store of the reset sequence, and how many of them have been issued. */
  function Reset(i: nat): Entry {
    if i == 0 then Entry(X, 0) else if i == 1 then Entry(Y, 0) else if i == 2 then Entry(R0, -1) else Entry(R1, -1)
  }

  function Issued(pc: MainPc): nat {
    match pc
    case ResetY => 1
    case ResetR0 => 2
    case ResetR1 => 3
    case MStartArrive => 4
    case _ => 0
  }

  /** The main thread's buffer holds the last of the reset stores it has issued. */
  ghost predicate MainBufOk(m: Main) {
    && |m.buf| <= Issued(m.pc)
    && forall j :: 0 <= j < |m.buf| ==> m.buf[j] == Reset(Issued(m.pc) - |m.buf| + j)
  }

  ghost predicate BitsOk(mem: Memory) { (mem.x == 0 || mem.x == 1) && (mem.y == 0 || mem.y == 1) }

  ghost predicate BuffersOk(cfg: Config, s: State) {
    && |s.ws| == 2
    && WorkerBufOk(cfg.mode, 0, s.ws[0]) && WorkerBufOk(cfg.mode, 1, s.ws[1])
    && MainBufOk(s.m)
    && BitsOk(s.mem)
  }

  /** A worker never has the location it loads in its own buffer. */
  lemma LoadsMemory(mode: Mode, mem: Memory, t: nat, w: Worker)
    requires WorkerBufOk(mode, t, w) && w.pc == LoadOther && t < 2
    ensures Load(mem, w.buf, Other(t)) == Get(mem, Other(t))
  {
    if w.buf != [] {
      assert w.buf[..|w.buf| - 1] == [];
    }
  }

  lemma BufferAfterStep(cfg: Config, s: State, t: nat)
    requires t < 2 && |s.ws| == 2 && WorkerBufOk(cfg.mode, t, s.ws[t]) && BitsOk(s.mem) && Enabled(s, StepWorker(t))
    ensures WorkerBufOk(cfg.mode, t, WorkerStep(cfg, s, t).ws[t])
  {
    if s.ws[t].pc == LoadOther { LoadsMemory(cfg.mode, s.mem, t, s.ws[t]); }
  }

  lemma BufferAfterDrain(mode: Mode, t: nat, w: Worker)
    requires WorkerBufOk(mode, t, w) && w.buf != []
    ensures WorkerBufOk(mode, t, w.(buf := w.buf[1..]))
  {
  }

  lemma MainBufferAfterStep(cfg: Config, s: State)
    requires MainBufOk(s.m) && Enabled(s, StepMain)
    ensures MainBufOk(MainStep(cfg, s).m)
  {
  }

  lemma BuffersKept(cfg: Config, s: State, a: Action)
    requires BuffersOk(cfg, s) && Enabled(s, a)
    ensures BuffersOk(cfg, Apply(cfg, s, a))
  {
    match a
    case StepWorker(t) => BufferAfterStep(cfg, s, t);
    case StepMain => MainBufferAfterStep(cfg, s);
    case DrainWorker(t) => BuffersKeptByDrain(cfg, s, t);
    case DrainMain => BuffersKeptByMainDrain(cfg, s);
  }

  lemma BuffersKeptByDrain(cfg: Config, s: State, t: nat)
    requires BuffersOk(cfg, s) && Enabled(s, DrainWorker(t))
    ensures BuffersOk(cfg, Apply(cfg, s, DrainWorker(t)))
  {
    BufferAfterDrain(cfg.mode, t, s.ws[t]);
  }

  lemma BuffersKeptByMainDrain(cfg: Config, s: State)
    requires BuffersOk(cfg, s) && Enabled(s, DrainMain)
    ensures BuffersOk(cfg, Apply(cfg, s, DrainMain))
  {
  }

  // ---------- What a trial leaves in memory ----------

  /** The trial is open: the start barrier has released it and the main thread has not moved on. */
  predicate InTrial(m: Main, begun: nat) {
    m.pc == MEndArrive || m.pc == MEndWait || Reading(m.pc) || (m.pc == MStartWait && begun == m.trial + 1)
  }

  predicate Loaded(w: Worker, trial: nat) {
    (w.trial == trial && (w.pc == StoreResult || w.pc == EndArrive || w.pc == EndWait)) || w.trial == trial + 1
  }

  predicate Stored(t: nat, w: Worker, trial: nat) {
    && (Loaded(w, trial) || (w.trial == trial && (w.pc == LoadOther || w.pc == Fence)))
    && (w.buf == [] || w.buf[0].loc != Own(t))
  }

  /** The worker's result of the trial has reached memory. */
  predicate Reported(w: Worker, trial: nat) {
    (w.trial == trial && (w.pc == EndWait || (w.pc == EndArrive && w.buf == []))) || w.trial == trial + 1
  }

  ghost predicate ResultOk(s: State, t: nat)
    requires t < |s.ws|
  {
    InTrial(s.m, s.start.generation) && Reported(s.ws[t], s.m.trial) ==> Get(s.mem, Result(t)) == s.ws[t].v
  }

  ghost predicate ReadOk(s: State)
    requires |s.ws| == 2
  {
    && (s.m.pc == ReadR1 || s.m.pc == Classify ==> s.m.r0 == s.ws[0].v)
    && (s.m.pc == Classify ==> s.m.r1 == s.ws[1].v)
    && s.m.pc != Unexpected
  }

  /** Once its store has left the buffer, the worker's own location holds 1 until the trial closes. */
  ghost predicate OwnOk(s: State, t: nat)
    requires t < |s.ws|
  {
    InTrial(s.m, s.start.generation) && Stored(t, s.ws[t], s.m.trial) ==> Get(s.mem, Own(t)) == 1
  }

  /** In seqcst mode not both loads of a trial return 0. */
  ghost predicate SeqCstOk(cfg: Config, s: State)
    requires |s.ws| == 2
  {
    cfg.mode == SeqCst && InTrial(s.m, s.start.generation) && Loaded(s.ws[0], s.m.trial) && Loaded(s.ws[1], s.m.trial)
    ==> s.ws[0].v == 1 || s.ws[1].v == 1
  }

  ghost predicate TrialOk(cfg: Config, s: State) {
    && |s.ws| == 2
    && OwnOk(s, 0) && OwnOk(s, 1) && ResultOk(s, 0) && ResultOk(s, 1) && ReadOk(s) && SeqCstOk(cfg, s)
  }

  /** A worker in its body is in the main thread's open trial. */
  lemma BodyIsInTrial(cfg: Config, s: State, t: nat)
    requires BarriersOk(cfg, s.ws, s.m, s.start, s.end) && t < 2 && InBody(s.ws[t].pc)
    ensures InTrial(s.m, s.start.generation) && s.m.trial == s.ws[t].trial && !Reading(s.m.pc)
  {
  }

  lemma TrialKeptInBody(cfg: Config, s: State, t: nat)
    requires BarriersOk(cfg, s.ws, s.m, s.start, s.end) && BuffersOk(cfg, s) && TrialOk(cfg, s)
    requires Enabled(s, StepWorker(t)) && InBody(s.ws[t].pc)
    ensures TrialOk(cfg, WorkerStep(cfg, s, t))
  {
    assert t == 0 || t == 1;
    BodyIsInTrial(cfg, s, t);
    if s.ws[t].pc == LoadOther { LoadsMemory(cfg.mode, s.mem, t, s.ws[t]); }
  }

  lemma TrialKeptAtBarrier(cfg: Config, s: State, t: nat)
    requires BarriersOk(cfg, s.ws, s.m, s.start, s.end) && BuffersOk(cfg, s) && TrialOk(cfg, s)
    requires Enabled(s, StepWorker(t)) && !InBody(s.ws[t].pc)
    ensures TrialOk(cfg, WorkerStep(cfg, s, t))
  {
    assert t == 0 || t == 1;
  }

  lemma TrialKeptByWorker(cfg: Config, s: State, t: nat)
    requires BarriersOk(cfg, s.ws, s.m, s.start, s.end) && BuffersOk(cfg, s) && TrialOk(cfg, s)
    requires Enabled(s, StepWorker(t))
    ensures TrialOk(cfg, Apply(cfg, s, StepWorker(t)))
  {
    if InBody(s.ws[t].pc) { TrialKeptInBody(cfg, s, t); } else { TrialKeptAtBarrier(cfg, s, t); }
  }

  lemma TrialKeptByReading(cfg: Config, s: State)
    requires BarriersOk(cfg, s.ws, s.m, s.start, s.end) && BuffersOk(cfg, s) && TrialOk(cfg, s)
    requires Enabled(s, StepMain) && Reading(s.m.pc)
    ensures TrialOk(cfg, MainStep(cfg, s))
  {
    BothReported(cfg, s);
  }

  lemma TrialKeptByWaiting(cfg: Config, s: State)
    requires BarriersOk(cfg, s.ws, s.m, s.start, s.end) && TrialOk(cfg, s)
    requires Enabled(s, StepMain) && !Reading(s.m.pc)
    ensures TrialOk(cfg, MainStep(cfg, s))
  {
  }

  lemma TrialKeptByMain(cfg: Config, s: State)
    requires BarriersOk(cfg, s.ws, s.m, s.start, s.end) && BuffersOk(cfg, s) && TrialOk(cfg, s)
    requires Enabled(s, StepMain)
    ensures TrialOk(cfg, Apply(cfg, s, StepMain))
  {
    if Reading(s.m.pc) { TrialKeptByReading(cfg, s); } else { TrialKeptByWaiting(cfg, s); }
  }

  /** A drained store of a worker is its own location's 1, or its result. */
  lemma TrialKeptByDrain(cfg: Config, s: State, t: nat)
    requires BarriersOk(cfg, s.ws, s.m, s.start, s.end) && BuffersOk(cfg, s) && TrialOk(cfg, s)
    requires Enabled(s, DrainWorker(t))
    ensures TrialOk(cfg, Apply(cfg, s, DrainWorker(t)))
  {
    assert t == 0 || t == 1;
    BodyIsInTrial(cfg, s, t);
  }

  lemma TrialKept(cfg: Config, s: State, a: Action)
    requires BarriersOk(cfg, s.ws, s.m, s.start, s.end) && BuffersOk(cfg, s) && TrialOk(cfg, s)
    requires Enabled(s, a)
    ensures TrialOk(cfg, Apply(cfg, s, a))
  {
    match a
    case StepWorker(t) => TrialKeptByWorker(cfg, s, t);
    case StepMain => TrialKeptByMain(cfg, s);
    case DrainWorker(t) => TrialKeptByDrain(cfg, s, t);
    case DrainMain =>
  }

  // ---------- The counters ----------

  /** Measured trials among the first `n`. */
  function Measured(cfg: Config, n: nat): nat {
    if n == 0 then 0 else Measured(cfg, n - 1) + (if n - 1 >= cfg.warmup then 1 else 0)
  }

  function CountSum(c: Counts): nat { c.c00 + c.c01 + c.c10 + c.c11 }

  ghost predicate CountsOk(cfg: Config, m: Main) {
    && CountSum(m.counts) == Measured(cfg, m.trial)
    && (cfg.mode == SeqCst ==> m.counts.c00 == 0)
  }

  /** When a trial is classified both workers have reported it. */
  lemma BothReported(cfg: Config, s: State)
    requires BarriersOk(cfg, s.ws, s.m, s.start, s.end) && Reading(s.m.pc)
    ensures Reported(s.ws[0], s.m.trial) && Reported(s.ws[1], s.m.trial)
    ensures Loaded(s.ws[0], s.m.trial) && Loaded(s.ws[1], s.m.trial)
  {
  }

  lemma ClassifyCounts(cfg: Config, s: State)
    requires BarriersOk(cfg, s.ws, s.m, s.start, s.end) && BuffersOk(cfg, s) && TrialOk(cfg, s)
    requires CountsOk(cfg, s.m) && s.m.pc == Classify
    ensures CountsOk(cfg, MainStep(cfg, s).m)
  {
    BothReported(cfg, s);
    OneMoreCounted(cfg, s.m);
  }

  lemma OneMoreCounted(cfg: Config, m: Main)
    requires CountsOk(cfg, m) && Expected(m.r0, m.r1) && m.trial >= cfg.warmup
    requires cfg.mode == SeqCst ==> !(m.r0 == 0 && m.r1 == 0)
    ensures CountsOk(cfg, MainNextTrial(cfg, m).(counts := Tally(m.counts, m.r0, m.r1)))
  {
    assert Measured(cfg, m.trial + 1) == Measured(cfg, m.trial) + 1;
  }

  /** A trial that is not classified is not a measured one. */
  lemma OthersKeepCounts(cfg: Config, s: State)
    requires MainOk(cfg, s.m, s.start.generation, s.end.generation) && CountsOk(cfg, s.m)
    requires Enabled(s, StepMain) && s.m.pc != Classify
    ensures CountsOk(cfg, MainStep(cfg, s).m)
  {
  }

  lemma CountsKept(cfg: Config, s: State, a: Action)
    requires BarriersOk(cfg, s.ws, s.m, s.start, s.end) && BuffersOk(cfg, s) && TrialOk(cfg, s)
    requires CountsOk(cfg, s.m) && Enabled(s, a)
    ensures CountsOk(cfg, Apply(cfg, s, a).m)
  {
    if a.StepMain? {
      if s.m.pc == Classify { ClassifyCounts(cfg, s); } else { OthersKeepCounts(cfg, s); }
    }
  }

  // ---------- All together ----------

  ghost predicate Inv(cfg: Config, s: State) {
    && BarriersOk(cfg, s.ws, s.m, s.start, s.end)
    && BuffersOk(cfg, s)
    && TrialOk(cfg, s)
    && CountsOk(cfg, s.m)
  }

  lemma InitInv(cfg: Config)
    ensures Inv(cfg, Init(cfg))
  {
  }

  lemma StepInv(cfg: Config, s: State, a: Action)
    requires Inv(cfg, s) && Enabled(s, a)
    ensures Inv(cfg, Apply(cfg, s, a))
  {
    BarriersKept(cfg, s, a);
    BuffersKept(cfg, s, a);
    TrialKept(cfg, s, a);
    CountsKept(cfg, s, a);
  }

  lemma {:induction false} RunInv(cfg: Config, states: seq<State>, actions: seq<Action>, i: nat)
    requires IsRun(cfg, states, actions) && i < |states|
    ensures Inv(cfg, states[i])
  {
    if i == 0 {
      InitInv(cfg);
    } else {
      RunInv(cfg, states, actions, i - 1);
      StepInv(cfg, states[i - 1], actions[i - 1]);
    }
  }
}
