/** What the ring protocol promises over whole runs. */
module RingTheorems {
  import opened Word64
  import opened RingProtocol
  import opened RingSafety

  // ---------- Refinement of a bounded first-in first-out queue ----------

  /** The abstract queue: what is stored, how many values were pushed, what was popped. */
  datatype Fifo = Fifo(queue: seq<word>, pushed: nat, popped: seq<word>)

  predicate FifoPush(capacity: nat, f: Fifo, f': Fifo) {
    |f.queue| < capacity && f' == f.(queue := f.queue + [Item(f.pushed)], pushed := f.pushed + 1)
  }

  predicate FifoPop(f: Fifo, f': Fifo) {
    f.queue != [] && f' == f.(queue := f.queue[1..], popped := f.popped + [f.queue[0]])
  }

  /** The buffer words between two unbounded indices. */
  function Window(slots: seq<Slot>, from: nat, to: nat): (w: seq<word>)
    requires from <= to && slots != []
    ensures |w| == to - from
  {
    seq<word>(to - from, k requires 0 <= k < to - from => slots[Residue(from + k, |slots|)].value)
  }

  /** The values pushed by the calls numbered `from` up to `to`. */
  function Items(from: nat, to: nat): (w: seq<word>)
    requires from <= to
    ensures |w| == to - from
  {
    seq<word>(to - from, k requires 0 <= k < to - from => Item(from + k))
  }

  ghost predicate HasWindow(s: State) {
    s.slots != [] && 1 <= |s.heads| <= |s.tails|
  }

  function Abstract(s: State): Fifo
    requires HasWindow(s)
  {
    Fifo(Window(s.slots, |s.heads| - 1, |s.tails| - 1), |s.tails| - 1, s.c.popped)
  }

  /** What lies between the indices, in memory, is the run of values not yet popped. */
  lemma WindowHoldsItems(cfg: Config, s: State)
    requires ValidConfig(cfg) && Inv(cfg, s)
    ensures HasWindow(s) && Pushes(s) - Pops(s) <= cfg.capacity
    ensures Abstract(s).queue == Items(Pops(s), Pushes(s))
  {
    var h, w := Pops(s), Abstract(s).queue;
    forall k | 0 <= k < |w| ensures w[k] == Item(h + k) {
      assert Holds(s.slots, h + k);
    }
  }

  /** The abstract queue that stands between two unbounded indices. */
  function Between(from: nat, to: nat, popped: seq<word>): Fifo
    requires from <= to
  {
    Fifo(Items(from, to), to, popped)
  }

  lemma BetweenMoves(capacity: nat, from: nat, to: nat, popped: seq<word>)
    requires from <= to
    ensures to + 1 - from <= capacity ==> FifoPush(capacity, Between(from, to, popped), Between(from, to + 1, popped))
    ensures from < to ==> FifoPop(Between(from, to, popped), Between(from + 1, to, popped + [Item(from)]))
    ensures popped + [] == popped
  {
    assert Items(from, to + 1) == Items(from, to) + [Item(to)];
    if from < to {
      assert Items(from, to)[0] == Item(from) && Items(from, to)[1..] == Items(from + 1, to);
    }
  }

  lemma AbstractIsBetween(cfg: Config, s: State)
    requires ValidConfig(cfg) && Inv(cfg, s)
    ensures HasWindow(s) && Pushes(s) - Pops(s) <= cfg.capacity
    ensures Abstract(s) == Between(Pops(s), Pushes(s), s.c.popped)
  {
    WindowHoldsItems(cfg, s);
  }

  /** How the numbers behind the abstract queue move in one step. */
  lemma StepMoves(cfg: Config, s: State, a: Action)
    requires ValidConfig(cfg) && Inv(cfg, s) && Enabled(cfg, s, a)
    ensures var s' := Apply(cfg, s, a);
      && Inv(cfg, s')
      && Pushes(s') == Pushes(s) + (if a.PublishTail? then 1 else 0)
      && Pops(s') == Pops(s) + (if a.PublishHead? then 1 else 0)
      && s'.c.popped == s.c.popped + (if a.PublishHead? then [Item(Pops(s))] else [])
  {
    StepKeeps(cfg, s, a);
    StepCounts(cfg, s, a, Pops(s));
  }

  lemma StepCounts(cfg: Config, s: State, a: Action, h: nat)
    requires Enabled(cfg, s, a) && (s.c.pc == CPublish ==> s.c.value == Item(h))
    ensures var s' := Apply(cfg, s, a);
      && |s'.tails| == |s.tails| + (if a.PublishTail? then 1 else 0)
      && |s'.heads| == |s.heads| + (if a.PublishHead? then 1 else 0)
      && s'.c.popped == s.c.popped + (if a.PublishHead? then [Item(h)] else [])
  {
  }

  /** Every step is a push or a pop of the abstract queue, at the release store, or changes nothing. */
  lemma StepRefines(cfg: Config, s: State, a: Action)
    requires ValidConfig(cfg) && Inv(cfg, s) && Enabled(cfg, s, a)
    ensures var s' := Apply(cfg, s, a);
      && HasWindow(s) && HasWindow(s')
      && (if a.PublishTail? then FifoPush(cfg.capacity, Abstract(s), Abstract(s'))
          else if a.PublishHead? then FifoPop(Abstract(s), Abstract(s'))
          else Abstract(s') == Abstract(s))
  {
    StepMoves(cfg, s, a);
    AbstractIsBetween(cfg, s);
    AbstractIsBetween(cfg, Apply(cfg, s, a));
    BetweenMoves(cfg.capacity, Pops(s), Pushes(s), s.c.popped);
  }

  lemma RunRefines(cfg: Config, states: seq<State>, actions: seq<Action>, i: nat)
    requires ValidConfig(cfg) && IsRun(cfg, states, actions) && i < |actions|
    ensures HasWindow(states[i]) && HasWindow(states[i + 1])
    ensures var f, f' := Abstract(states[i]), Abstract(states[i + 1]);
      FifoPush(cfg.capacity, f, f') || FifoPop(f, f') || f' == f
  {
    RunInv(cfg, states, actions, i);
    StepRefines(cfg, states[i], actions[i]);
  }

  /** At any point of any run the pops so far are 1, 2, 3, ..., a prefix of the pushes, at most `capacity` behind. */
  lemma PopsArePrefixOfPushes(cfg: Config, states: seq<State>, actions: seq<Action>, i: nat)
    requires ValidConfig(cfg) && IsRun(cfg, states, actions) && i < |states|
    ensures var popped := states[i].c.popped;
      && (forall k :: 0 <= k < |popped| ==> popped[k] == Item(k))
      && |popped| <= states[i].p.sent <= |popped| + cfg.capacity
      && states[i].p.sent <= cfg.messages
  {
    RunInv(cfg, states, actions, i);
    WindowHoldsItems(cfg, states[i]);
  }

  // ---------- Data races ----------

  /**
   No access to the plain buffer races. A read of element `n` is ordered after the write of `n`;
   a write of element `n` is ordered after the read of `n - capacity`, which used the slot before.
   */
  lemma AccessesAreOrdered(cfg: Config, states: seq<State>, actions: seq<Action>, i: nat)
    requires ValidConfig(cfg) && IsRun(cfg, states, actions) && i < |actions|
    ensures !states[i + 1].race
    ensures actions[i].ReadSlot? ==> var n := |states[i].c.popped|; n < states[i].c.view.writes
    ensures actions[i].WriteSlot? ==> var n := states[i].p.sent; n < states[i].p.view.fetches + cfg.capacity
  {
    RunInv(cfg, states, actions, i);
    RunInv(cfg, states, actions, i + 1);
  }

  // ---------- The wrapped tests ----------

  /** The 64-bit full and empty tests and the mask decide as if the indices were unbounded, however stale the load. */
  lemma WrappedTestsAreExact(cfg: Config, s: State, k: nat)
    requires ValidConfig(cfg) && Inv(cfg, s)
    ensures Enabled(cfg, s, LoadHeadAcquire(k)) ==>
      (Apply(cfg, s, LoadHeadAcquire(k)).p.pc == PFullHit <==> Pushes(s) - k == cfg.capacity)
    ensures Enabled(cfg, s, LoadTailAcquire(k)) ==>
      (Apply(cfg, s, LoadTailAcquire(k)).c.pc == CLoadHead <==> k == Pops(s))
    ensures s.p.pc == PWrite ==> SlotIndex(cfg, s.p.tail) == Pushes(s) % cfg.capacity
    ensures s.c.pc == CRead ==> SlotIndex(cfg, s.c.head) == Pops(s) % cfg.capacity
  {
    if Enabled(cfg, s, LoadHeadAcquire(k)) { FullTestIsExact(cfg, s, k); }
    if Enabled(cfg, s, LoadTailAcquire(k)) { EmptyTestIsExact(cfg, s, k); }
    if s.p.pc == PWrite { MaskIsExact(cfg, s.p.tail, Pushes(s)); }
    if s.c.pc == CRead { MaskIsExact(cfg, s.c.head, Pops(s)); }
  }

  lemma FullTestIsExact(cfg: Config, s: State, k: nat)
    requires ValidConfig(cfg) && Inv(cfg, s) && Enabled(cfg, s, LoadHeadAcquire(k))
    ensures Apply(cfg, s, LoadHeadAcquire(k)).p.pc == PFullHit <==> Pushes(s) - k == cfg.capacity
  {
    LoadHeadAcquireKeeps(cfg, s, k);
  }

  lemma EmptyTestIsExact(cfg: Config, s: State, k: nat)
    requires ValidConfig(cfg) && Inv(cfg, s) && Enabled(cfg, s, LoadTailAcquire(k))
    ensures Apply(cfg, s, LoadTailAcquire(k)).c.pc == CLoadHead <==> k == Pops(s)
  {
    LoadTailAcquireKeeps(cfg, s, k);
  }

  lemma MaskIsExact(cfg: Config, index: word, n: nat)
    requires ValidConfig(cfg) && index == Wrap(n)
    ensures SlotIndex(cfg, index) == n % cfg.capacity
  {
    MaskIsSlot(n, cfg.capacity);
    ResidueIsMod(n, cfg.capacity);
  }

  // ---------- The result ----------

  lemma {:induction false} TotalClosed(n: nat)
    ensures TotalTo(n) == n * (n + 1) / 2
  {
    if n > 0 {
      TotalClosed(n - 1);
      assert n * (n + 1) == (n - 1) * n + 2 * n;
      assert (n - 1) * n + 2 * n >= 0;
    }
  }

  /** The result of a state in which both threads have returned. */
  lemma FinishedState(cfg: Config, s: State)
    requires ValidConfig(cfg) && Inv(cfg, s) && Finished(s)
    ensures s.c.popped == Items(0, cfg.messages)
    ensures s.c.checksum == (cfg.messages * (cfg.messages + 1) / 2) % TWO64
  {
    TotalClosed(cfg.messages);
    ResidueIsMod(TotalTo(cfg.messages), TWO64);
  }

  /** A run in which both threads returned delivered each message once, in order, with the expected checksum. */
  lemma FinishedRun(cfg: Config, states: seq<State>, actions: seq<Action>, i: nat)
    requires ValidConfig(cfg) && IsRun(cfg, states, actions) && i < |states|
    requires states[i].p.pc == PDone && states[i].c.pc == CDone
    ensures states[i].c.popped == Items(0, cfg.messages)
    ensures states[i].c.checksum == (cfg.messages * (cfg.messages + 1) / 2) % TWO64
  {
    RunInv(cfg, states, actions, i);
    FinishedState(cfg, states[i]);
  }

  // ---------- Progress ----------

  /** The loads of a step return the newest store. */
  predicate Newest(s: State, a: Action) {
    match a
    case LoadTailRelaxed(k) => k + 1 == |s.tails|
    case LoadHeadAcquire(k) => k + 1 == |s.heads|
    case LoadHeadRelaxed(k) => k + 1 == |s.heads|
    case LoadTailAcquire(k) => k + 1 == |s.tails|
    case _ => true
  }

  predicate IsPublish(a: Action) { a.PublishTail? || a.PublishHead? }

  predicate ByProducer(a: Action) {
    a.LoadTailRelaxed? || a.LoadHeadAcquire? || a.CountFullHit? || a.WriteSlot? || a.PublishTail?
  }

  function StepsOf(actions: seq<Action>, producer: bool): (n: nat)
    ensures n <= |actions|
  {
    if actions == [] then 0
    else (if ByProducer(actions[0]) == producer then 1 else 0) + StepsOf(actions[1..], producer)
  }

  /** Steps a producer that finds room takes up to and including its publish; the same for a consumer. */
  function ProducerDistance(pc: ProducerPc): nat {
    match pc
    case PFullHit => 5
    case PLoadTail => 4
    case PLoadHead => 3
    case PWrite => 2
    case PPublish => 1
    case PDone => 0
  }

  function ConsumerDistance(pc: ConsumerPc): nat {
    match pc
    case CLoadHead => 4
    case CLoadTail => 3
    case CRead => 2
    case CPublish => 1
    case CDone => 0
  }

  predicate Finished(s: State) { s.p.pc == PDone && s.c.pc == CDone }

  predicate CanPush(cfg: Config, s: State) { s.p.pc != PDone && |s.tails| - |s.heads| < cfg.capacity }
  predicate CanPop(s: State) { s.c.pc != CDone && |s.tails| > |s.heads| }

  /** Somebody always has something to do: an unfinished ring is not both full and empty. */
  lemma SomebodyCan(cfg: Config, s: State)
    requires ValidConfig(cfg) && Inv(cfg, s) && !Finished(s)
    ensures CanPush(cfg, s) || CanPop(s)
  {
  }

  lemma ProducerComesCloser(cfg: Config, s: State, a: Action)
    requires ValidConfig(cfg) && Inv(cfg, s) && Enabled(cfg, s, a) && Newest(s, a) && !IsPublish(a) && CanPush(cfg, s)
    ensures var s' := Apply(cfg, s, a);
      CanPush(cfg, s') && ProducerDistance(s'.p.pc) + (if ByProducer(a) then 1 else 0) == ProducerDistance(s.p.pc)
  {
    if a.LoadHeadAcquire? { FullTestIsExact(cfg, s, a.k); }
  }

  lemma ConsumerComesCloser(cfg: Config, s: State, a: Action)
    requires ValidConfig(cfg) && Inv(cfg, s) && Enabled(cfg, s, a) && Newest(s, a) && !IsPublish(a) && CanPop(s)
    ensures var s' := Apply(cfg, s, a);
      CanPop(s') && ConsumerDistance(s'.c.pc) + (if ByProducer(a) then 0 else 1) == ConsumerDistance(s.c.pc)
  {
    if a.LoadTailAcquire? { EmptyTestIsExact(cfg, s, a.k); }
  }

  /** A stretch of a run: like a run, from any state that keeps the invariant. */
  ghost predicate IsStretch(cfg: Config, states: seq<State>, actions: seq<Action>) {
    && |states| == |actions| + 1
    && Inv(cfg, states[0])
    && forall i :: 0 <= i < |actions| ==> IsNewestStep(cfg, states[i], actions[i], states[i + 1])
  }

  predicate IsNewestStep(cfg: Config, s: State, a: Action, s': State) {
    Enabled(cfg, s, a) && Newest(s, a) && s' == Apply(cfg, s, a)
  }

  /** The first step of a stretch, and the rest of it. */
  lemma StretchTail(cfg: Config, states: seq<State>, actions: seq<Action>)
    requires ValidConfig(cfg) && IsStretch(cfg, states, actions) && actions != []
    ensures IsNewestStep(cfg, states[0], actions[0], states[1])
    ensures IsStretch(cfg, states[1..], actions[1..])
  {
    assert IsNewestStep(cfg, states[0], actions[0], states[0 + 1]);
    StepKeeps(cfg, states[0], actions[0]);
    forall i | 0 <= i < |actions[1..]|
      ensures IsNewestStep(cfg, states[1..][i], actions[1..][i], states[1..][i + 1])
    {
      assert IsNewestStep(cfg, states[i + 1], actions[i + 1], states[i + 1 + 1]);
    }
  }

  lemma {:induction false} NobodySpinsAlone(cfg: Config, states: seq<State>, actions: seq<Action>)
    requires ValidConfig(cfg) && IsStretch(cfg, states, actions)
    requires forall a :: a in actions ==> !IsPublish(a)
    ensures CanPush(cfg, states[0]) ==> StepsOf(actions, true) < ProducerDistance(states[0].p.pc)
    ensures CanPop(states[0]) ==> StepsOf(actions, false) < ConsumerDistance(states[0].c.pc)
  {
    if actions != [] {
      var a := actions[0];
      assert a in actions;
      StretchTail(cfg, states, actions);
      if CanPush(cfg, states[0]) { ProducerComesCloser(cfg, states[0], a); }
      if CanPop(states[0]) { ConsumerComesCloser(cfg, states[0], a); }
      NobodySpinsAlone(cfg, states[1..], actions[1..]);
    }
  }

  /** Both threads never spin at once: without a publish one of them stops after four or three steps. */
  lemma NeverBothSpinning(cfg: Config, states: seq<State>, actions: seq<Action>)
    requires ValidConfig(cfg) && IsStretch(cfg, states, actions) && !Finished(states[0])
    requires forall a :: a in actions ==> !IsPublish(a)
    ensures (states[0].p.pc != PDone && StepsOf(actions, true) <= 4) || (states[0].c.pc != CDone && StepsOf(actions, false) <= 3)
  {
    SomebodyCan(cfg, states[0]);
    NobodySpinsAlone(cfg, states, actions);
  }

  // ---------- Completion under fair scheduling ----------

  /** A round gives each thread enough turns for one operation, unless it has returned by the end of the round. */
  ghost predicate FairRound(states: seq<State>, actions: seq<Action>)
    requires |states| == |actions| + 1
  {
    && (states[|actions|].p.pc == PDone || StepsOf(actions, true) >= 5)
    && (states[|actions|].c.pc == CDone || StepsOf(actions, false) >= 4)
  }

  lemma NoReturnWithoutPublish(cfg: Config, s: State, a: Action)
    requires Enabled(cfg, s, a) && !IsPublish(a)
    ensures var s' := Apply(cfg, s, a);
      (s'.p.pc == PDone <==> s.p.pc == PDone) && (s'.c.pc == CDone <==> s.c.pc == CDone)
  {
  }

  /** Threads return by publishing their last index. */
  lemma {:induction false} ReturnsByPublishing(cfg: Config, states: seq<State>, actions: seq<Action>)
    requires ValidConfig(cfg) && IsStretch(cfg, states, actions)
    requires forall a :: a in actions ==> !IsPublish(a)
    ensures states[|actions|].p.pc == PDone <==> states[0].p.pc == PDone
    ensures states[|actions|].c.pc == CDone <==> states[0].c.pc == CDone
  {
    if actions != [] {
      assert actions[0] in actions;
      StretchTail(cfg, states, actions);
      NoReturnWithoutPublish(cfg, states[0], actions[0]);
      ReturnsByPublishing(cfg, states[1..], actions[1..]);
    }
  }

  function Published(s: State): nat
    requires |s.heads| > 0 && |s.tails| > 0
  {
    |s.heads| + |s.tails| - 2
  }

  lemma {:induction false} StretchMonotone(cfg: Config, states: seq<State>, actions: seq<Action>)
    requires ValidConfig(cfg) && IsStretch(cfg, states, actions)
    ensures Inv(cfg, states[|actions|])
    ensures Published(states[|actions|]) >= Published(states[0])
    ensures Published(states[|actions|]) > Published(states[0]) || forall a :: a in actions ==> !IsPublish(a)
    ensures Finished(states[0]) ==> actions == []
  {
    if actions != [] {
      StretchTail(cfg, states, actions);
      StepMoves(cfg, states[0], actions[0]);
      StretchMonotone(cfg, states[1..], actions[1..]);
    }
  }

  /** After a fair round something was published, or nothing was left to do. */
  lemma FairRoundPublishes(cfg: Config, states: seq<State>, actions: seq<Action>)
    requires ValidConfig(cfg) && IsStretch(cfg, states, actions) && FairRound(states, actions)
    ensures Inv(cfg, states[|actions|])
    ensures if Finished(states[0]) then states[|actions|] == states[0]
            else Published(states[|actions|]) > Published(states[0])
  {
    StretchMonotone(cfg, states, actions);
    if !Finished(states[0]) && forall a :: a in actions ==> !IsPublish(a) {
      ReturnsByPublishing(cfg, states, actions);
      NeverBothSpinning(cfg, states, actions);
    }
  }

  /** `rounds` consecutive fair rounds of newest-value loads, from the start of a run. */
  datatype Round = Round(states: seq<State>, actions: seq<Action>)

  ghost predicate IsFairRound(cfg: Config, round: Round) {
    IsStretch(cfg, round.states, round.actions) && FairRound(round.states, round.actions)
  }

  /** A round starts where the one before ended. */
  predicate Follows(before: Round, round: Round) {
    && |before.states| == |before.actions| + 1 && round.states != []
    && round.states[0] == before.states[|before.actions|]
  }

  ghost predicate FairSchedule(cfg: Config, rounds: seq<Round>) {
    && (forall r | 0 <= r < |rounds| :: IsFairRound(cfg, rounds[r]))
    && (forall r | 0 < r < |rounds| :: Follows(rounds[r - 1], rounds[r]))
    && (|rounds| > 0 ==> rounds[0].states != [] && rounds[0].states[0] == Init(cfg))
  }

  /** At least `published` operations have been completed, or all of them. */
  ghost predicate Progress(cfg: Config, s: State, published: nat) {
    Inv(cfg, s) && (Finished(s) || Published(s) >= published)
  }

  lemma RoundCounts(cfg: Config, round: Round, published: nat)
    requires ValidConfig(cfg) && IsFairRound(cfg, round) && Progress(cfg, round.states[0], published)
    ensures Progress(cfg, round.states[|round.actions|], published + 1)
  {
    FairRoundPublishes(cfg, round.states, round.actions);
  }

  lemma InitProgress(cfg: Config)
    requires ValidConfig(cfg)
    ensures Progress(cfg, Init(cfg), 0)
  {
    InitInv(cfg);
  }

  lemma RoundFollows(cfg: Config, rounds: seq<Round>, r: nat)
    requires FairSchedule(cfg, rounds) && 0 < r < |rounds|
    ensures IsFairRound(cfg, rounds[r - 1]) && rounds[r].states != []
    ensures rounds[r].states[0] == rounds[r - 1].states[|rounds[r - 1].actions|]
  {
    assert Follows(rounds[r - 1], rounds[r]);
  }

  lemma {:induction false} FairScheduleCounts(cfg: Config, rounds: seq<Round>, r: nat)
    requires ValidConfig(cfg) && FairSchedule(cfg, rounds) && r < |rounds|
    ensures rounds[r].states != [] && Progress(cfg, rounds[r].states[0], r)
  {
    if r == 0 {
      InitProgress(cfg);
    } else {
      FairScheduleCounts(cfg, rounds, r - 1);
      RoundFollows(cfg, rounds, r);
      RoundCounts(cfg, rounds[r - 1], r - 1);
    }
  }

  /** Two rounds per message are enough: both threads have then returned, with every message delivered in order. */
  lemma FairSchedulesFinish(cfg: Config, rounds: seq<Round>)
    requires ValidConfig(cfg) && FairSchedule(cfg, rounds) && |rounds| > 2 * cfg.messages
    ensures var s := rounds[2 * cfg.messages].states[0];
      && Finished(s) && s.c.popped == Items(0, cfg.messages)
      && s.c.checksum == (cfg.messages * (cfg.messages + 1) / 2) % TWO64
  {
    FairScheduleCounts(cfg, rounds, 2 * cfg.messages);
    FinishedState(cfg, rounds[2 * cfg.messages].states[0]);
  }
}
