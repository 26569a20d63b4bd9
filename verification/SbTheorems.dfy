/** What the store-buffering harness promises, and which outcomes each mode allows. */
module SbTheorems {
  import opened SbProtocol
  import opened SbSafety

  // ---------- The harness ----------

  /** Trials among the first `n` that are measured, in closed form. */
  lemma {:induction false} MeasuredClosed(cfg: Config, n: nat)
    ensures Measured(cfg, n) == if n <= cfg.warmup then 0 else if cfg.warmup < 0 then n else n - cfg.warmup
  {
    if n > 0 { MeasuredClosed(cfg, n - 1); }
  }

  /** The counters always add up to the measured trials so far, and the error branch is never taken. */
  lemma CountersAddUp(cfg: Config, states: seq<State>, actions: seq<Action>, i: nat)
    requires IsRun(cfg, states, actions) && i < |states|
    ensures states[i].m.pc != Unexpected
    ensures CountSum(states[i].m.counts) == Measured(cfg, states[i].m.trial)
    ensures cfg.warmup >= 0 && cfg.iterations >= 0 && states[i].m.pc == MReturned ==>
      CountSum(states[i].m.counts) == cfg.iterations
  {
    RunInv(cfg, states, actions, i);
    MeasuredClosed(cfg, states[i].m.trial);
  }

  /**
   From the completion of the end barrier until the main thread has classified the trial, nothing
   anybody can do changes memory, and what it classifies are the two values the workers loaded.
   */
  lemma NobodyDisturbsTheReader(cfg: Config, states: seq<State>, actions: seq<Action>, i: nat, a: Action)
    requires IsRun(cfg, states, actions) && i < |states| && AfterEndBarrier(states[i]) && Enabled(states[i], a)
    ensures Apply(cfg, states[i], a).mem == states[i].mem
    ensures states[i].m.pc == Classify ==>
      |states[i].ws| == 2 && states[i].m.r0 == states[i].ws[0].v && states[i].m.r1 == states[i].ws[1].v
  {
    RunInv(cfg, states, actions, i);
    ReaderSeesLoads(cfg, states[i]);
    EmptyAfterEnd(cfg, states[i]);
    QuietWithEmptyBuffers(cfg, states[i], a);
  }

  lemma ReaderSeesLoads(cfg: Config, s: State)
    requires Inv(cfg, s)
    ensures s.m.pc == Classify ==> |s.ws| == 2 && s.m.r0 == s.ws[0].v && s.m.r1 == s.ws[1].v
  {
  }

  /** The end barrier of the main thread's trial is complete and the trial not yet closed. */
  predicate AfterEndBarrier(s: State) {
    Reading(s.m.pc) || (s.m.pc == MEndWait && s.end.generation != s.m.ticket)
  }

  /** Memory changes only by drains. */
  lemma QuietWithEmptyBuffers(cfg: Config, s: State, a: Action)
    requires s.m.buf == [] && (forall t :: 0 <= t < |s.ws| ==> s.ws[t].buf == []) && Enabled(s, a)
    ensures Apply(cfg, s, a).mem == s.mem
  {
  }

  lemma EmptyAfterEnd(cfg: Config, s: State)
    requires BarriersOk(cfg, s.ws, s.m, s.start, s.end) && BuffersOk(cfg, s) && AfterEndBarrier(s)
    ensures s.m.buf == [] && s.ws[0].buf == [] && s.ws[1].buf == []
  {
  }

  // ---------- No deadlock ----------

  predicate AllReturned(s: State) {
    s.m.pc == MReturned && forall t :: 0 <= t < |s.ws| ==> s.ws[t].pc == Returned
  }

  lemma WorkerCanStep(s: State, t: nat)
    requires t < |s.ws| && !Enabled(s, StepWorker(t)) && !Enabled(s, DrainWorker(t))
    ensures var w := s.ws[t];
      || (w.pc == StartWait && s.start.generation == w.ticket)
      || (w.pc == EndWait && s.end.generation == w.ticket)
      || w.pc == Returned
  {
  }

  /** The barriers never leave a thread behind: until all have returned, some thread can go on. */
  lemma NoDeadlock(cfg: Config, s: State)
    requires Inv(cfg, s) && !AllReturned(s)
    ensures exists a :: Enabled(s, a)
  {
    if !exists a :: Enabled(s, a) {
      assert !Enabled(s, StepMain) && !Enabled(s, DrainMain);
      assert !Enabled(s, StepWorker(0)) && !Enabled(s, DrainWorker(0));
      assert !Enabled(s, StepWorker(1)) && !Enabled(s, DrainWorker(1));
      WorkerCanStep(s, 0);
      WorkerCanStep(s, 1);
    }
  }

  lemma NeverStuck(cfg: Config, states: seq<State>, actions: seq<Action>, i: nat)
    requires IsRun(cfg, states, actions) && i < |states|
    ensures AllReturned(states[i]) || exists a :: Enabled(states[i], a)
  {
    RunInv(cfg, states, actions, i);
    if !AllReturned(states[i]) { NoDeadlock(cfg, states[i]); }
  }

  // ---------- The forbidden outcome ----------

  /** In seqcst mode, whatever the interleaving and the draining, no trial ends with two zeros. */
  lemma SeqCstForbidsBothZero(cfg: Config, states: seq<State>, actions: seq<Action>, i: nat)
    requires cfg.mode == SeqCst && IsRun(cfg, states, actions) && i < |states|
    ensures states[i].m.counts.c00 == 0
    ensures states[i].m.pc == Classify ==> !(states[i].m.r0 == 0 && states[i].m.r1 == 0)
  {
    RunInv(cfg, states, actions, i);
    if states[i].m.pc == Classify { BothReported(cfg, states[i]); }
  }

  ghost predicate Reachable(cfg: Config, s: State) {
    exists states, actions :: IsRun(cfg, states, actions) && states[|actions|] == s
  }

  lemma ReachStep(cfg: Config, s: State, a: Action)
    requires Reachable(cfg, s) && Enabled(s, a)
    ensures Reachable(cfg, Apply(cfg, s, a))
  {
    var states, actions :| IsRun(cfg, states, actions) && states[|actions|] == s;
    var s' := Apply(cfg, s, a);
    assert IsRun(cfg, states + [s'], actions + [a]) && (states + [s'])[|actions + [a]|] == s';
  }

  lemma Go(cfg: Config, s: State, a: Action, s': State)
    requires Reachable(cfg, s) && Enabled(s, a) && s' == Apply(cfg, s, a)
    ensures Reachable(cfg, s')
  {
    ReachStep(cfg, s, a);
  }

  // ---------- The outcome the weaker modes allow ----------

  function Fresh(pc: WorkerPc): Worker { Worker(pc, 0, 0, 0, []) }
  function MainAt(pc: MainPc, buf: seq<Entry>): Main { Main(pc, 0, 0, 0, 0, Counts(0, 0, 0, 0), buf) }

  /** The state before the first trial, by what the main thread is doing. */
  function Opening(m: Main): State {
    State(Memory(0, 0, -1, -1), [Fresh(StartArrive), Fresh(StartArrive)], m, Barrier(0, 0), Barrier(0, 0))
  }

  /** Where the main thread is when it has issued `i` of the four reset stores. */
  function ResetPc(i: nat): MainPc {
    if i == 0 then ResetX else if i == 1 then ResetY else if i == 2 then ResetR0 else if i == 3 then ResetR1
    else MStartArrive
  }

  lemma ResetStep(cfg: Config, i: nat)
    requires i < 4
    ensures Enabled(Opening(MainAt(ResetPc(i), [])), StepMain)
    ensures MainStep(cfg, Opening(MainAt(ResetPc(i), []))) == Opening(MainAt(ResetPc(i + 1), [Reset(i)]))
    ensures Set(Memory(0, 0, -1, -1), Reset(i)) == Memory(0, 0, -1, -1)
  {
    assert [] + [Reset(i)] == [Reset(i)];
  }

  /** A reset store is issued and drained; the first ones leave memory as it was. */
  lemma GoReset(cfg: Config, i: nat)
    requires i < 4 && Reachable(cfg, Opening(MainAt(ResetPc(i), [])))
    ensures Reachable(cfg, Opening(MainAt(ResetPc(i + 1), [])))
  {
    ResetStep(cfg, i);
    var issued := Opening(MainAt(ResetPc(i + 1), [Reset(i)]));
    Go(cfg, Opening(MainAt(ResetPc(i), [])), StepMain, issued);
    assert issued.m.buf[1..] == [];
    Go(cfg, issued, DrainMain, Opening(MainAt(ResetPc(i + 1), [])));
  }

  /** The reset stores of the first trial are issued and drained. */
  lemma WitnessResets(cfg: Config)
    requires Total(cfg) == 1
    ensures Reachable(cfg, Opening(MainAt(MStartArrive, [])))
  {
    assert Init(cfg) == Opening(MainAt(ResetX, []));
    assert IsRun(cfg, [Init(cfg)], []);
    GoReset(cfg, 0);
    GoReset(cfg, 1);
    GoReset(cfg, 2);
    GoReset(cfg, 3);
  }

  /** All three pass the start barrier. */
  lemma WitnessStart(cfg: Config)
    requires Total(cfg) == 1
    ensures Reachable(cfg, State(Memory(0, 0, -1, -1), [Fresh(StoreOwn), Fresh(StoreOwn)], MainAt(MEndArrive, []),
                                 Barrier(0, 1), Barrier(0, 0)))
  {
    WitnessResets(cfg);
    var s0 := Opening(MainAt(MStartArrive, []));
    var s1 := s0.(m := MainAt(MStartWait, []), start := Barrier(1, 0));
    Go(cfg, s0, StepMain, s1);
    var s2 := s1.(ws := [Fresh(StartWait), Fresh(StartArrive)], start := Barrier(2, 0));
    Go(cfg, s1, StepWorker(0), s2);
    var s3 := s2.(ws := [Fresh(StartWait), Fresh(StoreOwn)], start := Barrier(0, 1));
    Go(cfg, s2, StepWorker(1), s3);
    var s4 := s3.(ws := [Fresh(StoreOwn), Fresh(StoreOwn)]);
    Go(cfg, s3, StepWorker(0), s4);
    var s5 := s4.(m := MainAt(MEndArrive, []));
    Go(cfg, s4, StepMain, s5);
  }

  function Ended(t: nat, buf: seq<Entry>): Worker { Worker(EndArrive, 0, 0, 0, buf) }

  function Pending(pc: WorkerPc, e: Entry): Worker { Worker(pc, 0, 0, 0, [e]) }

  /** The state of the open trial, by memory and workers. */
  function Trial(mem: Memory, w0: Worker, w1: Worker): State {
    State(mem, [w0, w1], MainAt(MEndArrive, []), Barrier(0, 1), Barrier(0, 0))
  }

  /** A step of worker `t` that leaves memory and barriers alone. */
  lemma GoWorker(cfg: Config, w0: Worker, w1: Worker, t: nat, w: Worker)
    requires t < 2 && (if t == 0 then w0 else w1).pc in {StoreOwn, LoadOther, StoreResult}
    requires var s := Trial(Memory(0, 0, -1, -1), w0, w1);
      Reachable(cfg, s) && Enabled(s, StepWorker(t)) && w == WorkerStep(cfg, s, t).ws[t]
    ensures Reachable(cfg, if t == 0 then Trial(Memory(0, 0, -1, -1), w, w1) else Trial(Memory(0, 0, -1, -1), w0, w))
  {
    var s := Trial(Memory(0, 0, -1, -1), w0, w1);
    ReachStep(cfg, s, StepWorker(t));
    assert [w0, w1][0 := w] == [w, w1] && [w0, w1][1 := w] == [w0, w];
  }

  /** Both workers have issued their stores. */
  lemma WitnessStores(cfg: Config)
    requires Total(cfg) == 1 && cfg.mode != SeqCst
    ensures Reachable(cfg, Trial(Memory(0, 0, -1, -1), Pending(LoadOther, Entry(X, 1)), Pending(LoadOther, Entry(Y, 1))))
  {
    var x, y, start := Entry(X, 1), Entry(Y, 1), Fresh(StoreOwn);
    WitnessStart(cfg);
    assert [] + [x] == [x] && [] + [y] == [y];
    GoWorker(cfg, start, start, 0, Pending(LoadOther, x));
    GoWorker(cfg, Pending(LoadOther, x), start, 1, Pending(LoadOther, y));
  }

  /** Both workers store and load the other's old value while both stores are still buffered. */
  lemma WitnessLoads(cfg: Config)
    requires Total(cfg) == 1 && cfg.mode != SeqCst
    ensures Reachable(cfg, Trial(Memory(0, 0, -1, -1), Pending(StoreResult, Entry(X, 1)), Pending(StoreResult, Entry(Y, 1))))
  {
    var x, y := Entry(X, 1), Entry(Y, 1);
    WitnessStores(cfg);
    LoadsMemory(cfg.mode, Memory(0, 0, -1, -1), 0, Pending(LoadOther, x));
    GoWorker(cfg, Pending(LoadOther, x), Pending(LoadOther, y), 0, Pending(StoreResult, x));
    LoadsMemory(cfg.mode, Memory(0, 0, -1, -1), 1, Pending(LoadOther, y));
    GoWorker(cfg, Pending(StoreResult, x), Pending(LoadOther, y), 1, Pending(StoreResult, y));
  }

  /** The two stores worker `t` has issued when it reaches the end barrier. */
  function BothStores(t: nat): seq<Entry> { [Entry(Own(t), 1), Entry(Result(t), 0)] }

  /** Both report 0. */
  lemma WitnessReports(cfg: Config)
    requires Total(cfg) == 1 && cfg.mode != SeqCst
    ensures Reachable(cfg, Trial(Memory(0, 0, -1, -1), Ended(0, BothStores(0)), Ended(1, BothStores(1))))
  {
    var x, y := Entry(X, 1), Entry(Y, 1);
    WitnessLoads(cfg);
    assert [x] + [Entry(R0, 0)] == BothStores(0) && [y] + [Entry(R1, 0)] == BothStores(1);
    GoWorker(cfg, Pending(StoreResult, x), Pending(StoreResult, y), 0, Ended(0, BothStores(0)));
    GoWorker(cfg, Ended(0, BothStores(0)), Pending(StoreResult, y), 1, Ended(1, BothStores(1)));
  }

  /** Everything drains. */
  lemma WitnessBody(cfg: Config)
    requires Total(cfg) == 1 && cfg.mode != SeqCst
    ensures Reachable(cfg, Trial(Memory(1, 1, 0, 0), Ended(0, []), Ended(1, [])))
  {
    WitnessReports(cfg);
    GoDrainBoth(cfg, Memory(0, 0, -1, -1), Ended(0, BothStores(0)), Ended(1, BothStores(1)), 0);
    GoDrainBoth(cfg, Memory(1, 0, 0, -1), Ended(0, []), Ended(1, BothStores(1)), 1);
  }

  lemma GoDrainBoth(cfg: Config, mem: Memory, w0: Worker, w1: Worker, t: nat)
    requires t < 2 && Reachable(cfg, Trial(mem, w0, w1)) && (if t == 0 then w0 else w1).buf == BothStores(t)
    ensures var mem' := Set(Set(mem, BothStores(t)[0]), BothStores(t)[1]);
      Reachable(cfg, if t == 0 then Trial(mem', w0.(buf := []), w1) else Trial(mem', w0, w1.(buf := [])))
  {
    var rest := [Entry(Result(t), 0)];
    assert BothStores(t)[1..] == rest && rest[1..] == [];
    GoDrain(cfg, mem, w0, w1, t);
    if t == 0 {
      GoDrain(cfg, Set(mem, BothStores(t)[0]), w0.(buf := rest), w1, t);
    } else {
      GoDrain(cfg, Set(mem, BothStores(t)[0]), w0, w1.(buf := rest), t);
    }
  }

  lemma GoDrain(cfg: Config, mem: Memory, w0: Worker, w1: Worker, t: nat)
    requires t < 2 && Reachable(cfg, Trial(mem, w0, w1)) && (if t == 0 then w0 else w1).buf != []
    ensures t == 0 ==> Reachable(cfg, Trial(Set(mem, w0.buf[0]), w0.(buf := w0.buf[1..]), w1))
    ensures t == 1 ==> Reachable(cfg, Trial(Set(mem, w1.buf[0]), w0, w1.(buf := w1.buf[1..])))
  {
    ReachStep(cfg, Trial(mem, w0, w1), DrainWorker(t));
    assert t == 0 ==> [w0, w1][0 := w0.(buf := w0.buf[1..])] == [w0.(buf := w0.buf[1..]), w1];
    assert t == 1 ==> [w0, w1][1 := w1.(buf := w1.buf[1..])] == [w0, w1.(buf := w1.buf[1..])];
  }

  /** The state after the end barrier, by what the main thread is doing. */
  function Closed(m: Main): State {
    State(Memory(1, 1, 0, 0), [Worker(EndWait, 0, 0, 0, []), Worker(Returned, 1, 0, 0, [])], m, Barrier(0, 1), Barrier(0, 1))
  }

  lemma WitnessEnd(cfg: Config)
    requires Total(cfg) == 1 && cfg.mode != SeqCst
    ensures Reachable(cfg, Closed(MainAt(MEndWait, [])))
  {
    WitnessBody(cfg);
    var s0 := Trial(Memory(1, 1, 0, 0), Ended(0, []), Ended(1, []));
    var s1 := s0.(m := MainAt(MEndWait, []), end := Barrier(1, 0));
    Go(cfg, s0, StepMain, s1);
    var s2 := s1.(ws := [Worker(EndWait, 0, 0, 0, []), Ended(1, [])], end := Barrier(2, 0));
    Go(cfg, s1, StepWorker(0), s2);
    Go(cfg, s2, StepWorker(1), Closed(MainAt(MEndWait, [])));
  }

  /** The trial is read and counted as 00. */
  lemma WitnessCounted(cfg: Config)
    requires cfg == Config(cfg.mode, 0, 1) && cfg.mode != SeqCst
    ensures exists s :: Reachable(cfg, s) && s.m.counts.c00 == 1
  {
    WitnessEnd(cfg);
    Go(cfg, Closed(MainAt(MEndWait, [])), StepMain, Closed(MainAt(ReadR0, [])));
    Go(cfg, Closed(MainAt(ReadR0, [])), StepMain, Closed(MainAt(ReadR1, [])));
    Go(cfg, Closed(MainAt(ReadR1, [])), StepMain, Closed(MainAt(Classify, [])));
    var m := Main(MJoin, 1, 0, 0, 0, Counts(1, 0, 0, 0), []);
    Go(cfg, Closed(MainAt(Classify, [])), StepMain, Closed(m));
    assert Closed(m).m.counts.c00 == 1;
  }

  /** Some run of the harness in this mode counts a trial in which both loads returned 0. */
  ghost predicate BothZeroPossible(mode: Mode) {
    exists cfg: Config, s: State :: cfg.mode == mode && Reachable(cfg, s) && s.m.counts.c00 > 0
  }

  /** Acquire/release does not forbid the outcome; sequential consistency does, and only it. */
  lemma BothZeroIffNotSeqCst(mode: Mode)
    ensures BothZeroPossible(mode) <==> mode != SeqCst
  {
    if mode == SeqCst {
      forall cfg: Config, s: State | cfg.mode == mode && Reachable(cfg, s) ensures s.m.counts.c00 == 0 {
        var states, actions :| IsRun(cfg, states, actions) && states[|actions|] == s;
        SeqCstForbidsBothZero(cfg, states, actions, |actions|);
      }
    } else {
      var cfg := Config(mode, 0, 1);
      WitnessCounted(cfg);
      var s :| Reachable(cfg, s) && s.m.counts.c00 == 1;
      assert cfg.mode == mode && s.m.counts.c00 > 0;
    }
  }
}
