/** What the four counters of the store-buffering harness count, and what every trial starts from. */
module SbOutcomes {
  import opened SbProtocol
  import opened SbSafety
  import opened SbTheorems
  import opened SbTermination

  /** In step `j` the main thread classifies a trial in which the workers loaded `a` and `b`. */
  predicate Classified(states: seq<State>, actions: seq<Action>, j: nat, a: int, b: int)
    requires j < |actions| && j < |states|
  {
    && actions[j].StepMain? && states[j].m.pc == Classify
    && |states[j].ws| == 2 && states[j].ws[0].v == a && states[j].ws[1].v == b
  }

  /** The number of trials among the first `i` steps classified with these loads. */
  function Outcomes(states: seq<State>, actions: seq<Action>, i: nat, a: int, b: int): nat
    requires i <= |actions| <= |states|
  {
    if i == 0 then 0
    else Outcomes(states, actions, i - 1, a, b) + if Classified(states, actions, i - 1, a, b) then 1 else 0
  }

  /** One more in the counter of the pair, and none in the others. */
  ghost predicate CountsPair(c: Counts, c': Counts, a: int, b: int) {
    && c'.c00 == c.c00 + (if a == 0 && b == 0 then 1 else 0)
    && c'.c01 == c.c01 + (if a == 0 && b == 1 then 1 else 0)
    && c'.c10 == c.c10 + (if a == 1 && b == 0 then 1 else 0)
    && c'.c11 == c.c11 + (if a == 1 && b == 1 then 1 else 0)
  }

  lemma ClassifyCountsPair(cfg: Config, s: State)
    requires Inv(cfg, s) && s.m.pc == Classify
    ensures |s.ws| == 2 && CountsPair(s.m.counts, MainStep(cfg, s).m.counts, s.ws[0].v, s.ws[1].v)
  {
    ReaderSeesLoads(cfg, s);
  }

  lemma OthersCountNothing(cfg: Config, s: State, a: Action)
    requires Enabled(s, a) && !(a.StepMain? && s.m.pc == Classify)
    ensures Apply(cfg, s, a).m.counts == s.m.counts
  {
  }

  /** Each counter is the number of classified trials in which the workers loaded its two values. */
  predicate CountersMatch(states: seq<State>, actions: seq<Action>, i: nat, c: Counts)
    requires i <= |actions| <= |states|
  {
    && c.c00 == Outcomes(states, actions, i, 0, 0) && c.c01 == Outcomes(states, actions, i, 0, 1)
    && c.c10 == Outcomes(states, actions, i, 1, 0) && c.c11 == Outcomes(states, actions, i, 1, 1)
  }

  lemma MatchAfterClassify(states: seq<State>, actions: seq<Action>, i: nat, c: Counts, c': Counts)
    requires i < |actions| <= |states| && CountersMatch(states, actions, i, c)
    requires actions[i].StepMain? && states[i].m.pc == Classify && |states[i].ws| == 2
    requires CountsPair(c, c', states[i].ws[0].v, states[i].ws[1].v)
    ensures CountersMatch(states, actions, i + 1, c')
  {
  }

  lemma MatchAfterOthers(states: seq<State>, actions: seq<Action>, i: nat, c: Counts)
    requires i < |actions| <= |states| && CountersMatch(states, actions, i, c)
    requires !(actions[i].StepMain? && states[i].m.pc == Classify)
    ensures CountersMatch(states, actions, i + 1, c)
  {
  }

  lemma {:induction false} CountersAreOutcomes(cfg: Config, states: seq<State>, actions: seq<Action>, i: nat)
    requires IsRun(cfg, states, actions) && i < |states|
    ensures CountersMatch(states, actions, i, states[i].m.counts)
  {
    if i > 0 {
      CountersAreOutcomes(cfg, states, actions, i - 1);
      RunInv(cfg, states, actions, i - 1);
      var s, a := states[i - 1], actions[i - 1];
      if a.StepMain? && s.m.pc == Classify {
        ClassifyCountsPair(cfg, s);
        MatchAfterClassify(states, actions, i - 1, s.m.counts, states[i].m.counts);
      } else {
        OthersCountNothing(cfg, s, a);
        MatchAfterOthers(states, actions, i - 1, s.m.counts);
      }
    }
  }

  /** What the program reports when it returns. */
  lemma ReportedOutcomes(cfg: Config, states: seq<State>, actions: seq<Action>)
    requires IsRun(cfg, states, actions) && states[|actions|].m.pc == MReturned
    ensures var c := states[|actions|].m.counts;
      && CountersMatch(states, actions, |actions|, c)
      && c.c00 + c.c01 + c.c10 + c.c11 == Measured(cfg, Total(cfg))
  {
    CountersAreOutcomes(cfg, states, actions, |actions|);
    CountersAddUp(cfg, states, actions, |actions|);
    RunInv(cfg, states, actions, |actions|);
    ReturnedAfterAll(cfg, states[|actions|]);
  }

  // ---------- Which trials are classified ----------

  /** The number of the first `i` steps that classify trial `trial`. */
  function TimesClassified(states: seq<State>, actions: seq<Action>, i: nat, trial: nat): nat
    requires i <= |actions| <= |states|
  {
    if i == 0 then 0
    else
      var s := states[i - 1];
      TimesClassified(states, actions, i - 1, trial)
        + if actions[i - 1].StepMain? && s.m.pc == Classify && s.m.trial == trial then 1 else 0
  }

  /** The warm-up is over whenever the main thread reads the results. */
  predicate ReadsAreMeasured(cfg: Config, m: Main) {
    m.pc in {ReadR0, ReadR1, Classify, Unexpected} ==> m.trial >= cfg.warmup
  }

  /** A trial has been classified once if it was measured and is over, and never otherwise. */
  function Expectation(cfg: Config, m: Main, trial: nat): nat {
    if cfg.warmup <= trial < m.trial then 1 else 0
  }

  lemma TrialStep(cfg: Config, s: State, a: Action, trial: nat)
    requires Inv(cfg, s) && Enabled(s, a) && ReadsAreMeasured(cfg, s.m)
    ensures ReadsAreMeasured(cfg, Apply(cfg, s, a).m)
    ensures Expectation(cfg, Apply(cfg, s, a).m, trial)
         == Expectation(cfg, s.m, trial)
          + if a.StepMain? && s.m.pc == Classify && s.m.trial == trial then 1 else 0
  {
    if a.StepMain? && s.m.pc == Classify { ClassifyIsExpected(cfg, s); }
  }

  lemma ClassifyIsExpected(cfg: Config, s: State)
    requires Inv(cfg, s) && s.m.pc == Classify
    ensures Expected(s.m.r0, s.m.r1)
  {
    ReaderSeesLoads(cfg, s);
  }

  lemma {:induction false} ClassifiedSoFar(cfg: Config, states: seq<State>, actions: seq<Action>, i: nat, trial: nat)
    requires IsRun(cfg, states, actions) && i < |states|
    ensures ReadsAreMeasured(cfg, states[i].m)
    ensures TimesClassified(states, actions, i, trial) == Expectation(cfg, states[i].m, trial)
  {
    if i > 0 {
      ClassifiedSoFar(cfg, states, actions, i - 1, trial);
      RunInv(cfg, states, actions, i - 1);
      TrialStep(cfg, states[i - 1], actions[i - 1], trial);
    }
  }

  /** At return every trial after the warm-up has been classified, once, and none of the warm-up has. */
  lemma MeasuredOnce(cfg: Config, states: seq<State>, actions: seq<Action>, trial: nat)
    requires IsRun(cfg, states, actions) && states[|actions|].m.pc == MReturned
    ensures TimesClassified(states, actions, |actions|, trial)
         == if cfg.warmup <= trial < cfg.warmup + cfg.iterations then 1 else 0
  {
    ClassifiedSoFar(cfg, states, actions, |actions|, trial);
    RunInv(cfg, states, actions, |actions|);
    ReturnedAfterAll(cfg, states[|actions|]);
  }

  // ---------- Every trial starts afresh ----------

  /** The main thread has begun to reset, and the start barrier has not released the trial. */
  predicate Preparing(s: State) {
    Resetting(s.m.pc) || (s.m.pc == MStartWait && s.start.generation == s.m.ticket)
  }

  function Drained(m: Main): int {
    (if m.pc == MStartWait then 4 else Issued(m.pc)) - |m.buf|
  }

  /** The reset stores that have left the buffer are in memory. */
  ghost predicate ResetOk(s: State) {
    Preparing(s) ==> forall j: nat :: j < 4 && j < Drained(s.m) ==> Get(s.mem, Reset(j).loc) == Reset(j).value
  }

  /** While the main thread prepares a trial the workers have nothing buffered and store nothing. */
  lemma WorkersAtBarrier(cfg: Config, s: State)
    requires BarriersOk(cfg, s.ws, s.m, s.start, s.end) && BuffersOk(cfg, s) && Preparing(s)
    ensures s.ws[0].buf == [] && s.ws[1].buf == []
  {
  }

  lemma ResetKeptByDrain(cfg: Config, s: State)
    requires MainBufOk(s.m) && ResetOk(s) && Enabled(s, DrainMain)
    ensures ResetOk(Apply(cfg, s, DrainMain))
  {
  }

  lemma ResetKeptByWorker(cfg: Config, s: State, t: nat)
    requires BarriersOk(cfg, s.ws, s.m, s.start, s.end) && ResetOk(s) && Enabled(s, StepWorker(t))
    ensures ResetOk(WorkerStep(cfg, s, t))
  {
    assert t == 0 || t == 1;
  }

  lemma ResetKeptByMain(cfg: Config, s: State)
    requires BarriersOk(cfg, s.ws, s.m, s.start, s.end) && MainBufOk(s.m) && ResetOk(s) && Enabled(s, StepMain)
    ensures ResetOk(MainStep(cfg, s))
  {
  }

  lemma ResetKept(cfg: Config, s: State, a: Action)
    requires Inv(cfg, s) && ResetOk(s) && Enabled(s, a)
    ensures ResetOk(Apply(cfg, s, a))
  {
    if Preparing(s) { WorkersAtBarrier(cfg, s); }
    match a
    case StepWorker(t) => ResetKeptByWorker(cfg, s, t);
    case StepMain => ResetKeptByMain(cfg, s);
    case DrainWorker(t) => assert t == 0 || t == 1;
    case DrainMain => ResetKeptByDrain(cfg, s);
  }

  lemma {:induction false} RunResets(cfg: Config, states: seq<State>, actions: seq<Action>, i: nat)
    requires IsRun(cfg, states, actions) && i < |states|
    ensures ResetOk(states[i])
  {
    if i > 0 {
      RunResets(cfg, states, actions, i - 1);
      RunInv(cfg, states, actions, i - 1);
      ResetKept(cfg, states[i - 1], actions[i - 1]);
    }
  }

  /** When the main thread can arrive, or waits, at the start barrier, memory is as at the very beginning. */
  lemma TrialsStartFresh(cfg: Config, states: seq<State>, actions: seq<Action>, i: nat)
    requires IsRun(cfg, states, actions) && i < |states|
    requires var s := states[i];
      (s.m.pc == MStartArrive && s.m.buf == []) || (s.m.pc == MStartWait && s.start.generation == s.m.ticket)
    ensures states[i].mem == Memory(0, 0, -1, -1)
  {
    var s := states[i];
    RunResets(cfg, states, actions, i);
    RunInv(cfg, states, actions, i);
    assert Drained(s.m) == 4;
    assert Get(s.mem, Reset(0).loc) == Reset(0).value && Get(s.mem, Reset(1).loc) == Reset(1).value;
    assert Get(s.mem, Reset(2).loc) == Reset(2).value && Get(s.mem, Reset(3).loc) == Reset(3).value;
  }
}
