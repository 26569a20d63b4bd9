/** The fair schedules under which the ring completes: they can be continued from any state. */
module RingFairness {
  import opened Word64
  import opened RingProtocol
  import opened RingSafety
  import opened RingTheorems

  predicate Returned(s: State, producer: bool) { if producer then s.p.pc == PDone else s.c.pc == CDone }

  /** The masked indices are slots of the buffer, so the buffer can always be accessed. */
  lemma MaskedInBuffer(cfg: Config, s: State)
    requires ValidConfig(cfg) && Inv(cfg, s)
    ensures s.p.pc == PWrite ==> Enabled(cfg, s, WriteSlot)
    ensures s.c.pc == CRead ==> Enabled(cfg, s, ReadSlot(0))
  {
    if s.p.pc == PWrite { IndexInBuffer(cfg, s.p.tail, Pushes(s)); }
    if s.c.pc == CRead { IndexInBuffer(cfg, s.c.head, Pops(s)); }
  }

  lemma IndexInBuffer(cfg: Config, index: word, n: nat)
    requires ValidConfig(cfg) && index == Wrap(n)
    ensures SlotIndex(cfg, index) < cfg.capacity
  {
    MaskIsSlot(n, cfg.capacity);
  }

  function NextOfProducer(s: State): Action
    requires s.tails != [] && s.heads != []
  {
    match s.p.pc
    case PLoadTail => LoadTailRelaxed(|s.tails| - 1)
    case PLoadHead => LoadHeadAcquire(|s.heads| - 1)
    case PWrite => WriteSlot
    case PPublish => PublishTail
    case _ => CountFullHit
  }

  function NextOfConsumer(s: State): Action
    requires s.tails != [] && s.heads != []
  {
    match s.c.pc
    case CLoadHead => LoadHeadRelaxed(|s.heads| - 1)
    case CLoadTail => LoadTailAcquire(|s.tails| - 1)
    case CRead => ReadSlot(0)
    case _ => PublishHead
  }

  /** A thread that has not returned can always take a step that loads newest values. */
  lemma ThreadCanStep(cfg: Config, s: State, producer: bool) returns (a: Action)
    requires ValidConfig(cfg) && Inv(cfg, s) && !Returned(s, producer)
    ensures Enabled(cfg, s, a) && Newest(s, a) && ByProducer(a) == producer
  {
    MaskedInBuffer(cfg, s);
    a := if producer then NextOfProducer(s) else NextOfConsumer(s);
  }

  lemma OtherThreadStays(cfg: Config, s: State, a: Action)
    requires Enabled(cfg, s, a)
    ensures var s' := Apply(cfg, s, a); if ByProducer(a) then s'.c == s.c else s'.p == s.p
  {
  }

  /** A first step in front of a stretch. */
  lemma StretchFrom(cfg: Config, s: State, a: Action, states: seq<State>, actions: seq<Action>)
    requires Inv(cfg, s) && IsStretch(cfg, states, actions) && IsNewestStep(cfg, s, a, states[0])
    ensures IsStretch(cfg, [s] + states, [a] + actions)
  {
    var ss, aa := [s] + states, [a] + actions;
    forall i | 0 <= i < |aa| ensures IsNewestStep(cfg, ss[i], aa[i], ss[i + 1]) {
      if i > 0 { assert ss[i] == states[i - 1] && aa[i] == actions[i - 1] && ss[i + 1] == states[i]; }
    }
  }

  lemma StepsFrom(a: Action, actions: seq<Action>, producer: bool)
    ensures StepsOf([a] + actions, producer)
         == (if ByProducer(a) == producer then 1 else 0) + StepsOf(actions, producer)
  {
    assert ([a] + actions)[1..] == actions;
  }

  lemma {:induction false} StepsAppend(a: seq<Action>, b: seq<Action>, producer: bool)
    ensures StepsOf(a + b, producer) == StepsOf(a, producer) + StepsOf(b, producer)
  {
    if a == [] {
      assert a + b == b;
    } else {
      assert (a + b)[1..] == a[1..] + b;
      StepsAppend(a[1..], b, producer);
    }
  }

  /** `n` turns of one thread, or fewer if it returns, in front of a stretch or on their own. */
  lemma {:induction false} Turns(cfg: Config, s: State, producer: bool, n: nat)
    returns (states: seq<State>, actions: seq<Action>)
    requires ValidConfig(cfg) && Inv(cfg, s)
    ensures IsStretch(cfg, states, actions) && states[0] == s
    ensures Inv(cfg, states[|actions|])
    ensures Returned(states[|actions|], producer) || StepsOf(actions, producer) == n
    ensures if producer then states[|actions|].c == s.c else states[|actions|].p == s.p
    decreases n
  {
    if n == 0 || Returned(s, producer) {
      states, actions := [s], [];
    } else {
      var a := ThreadCanStep(cfg, s, producer);
      StepKeeps(cfg, s, a);
      OtherThreadStays(cfg, s, a);
      var states', actions' := Turns(cfg, Apply(cfg, s, a), producer, n - 1);
      StretchFrom(cfg, s, a, states', actions');
      StepsFrom(a, actions', producer);
      states, actions := [s] + states', [a] + actions';
    }
  }

  /** Two stretches, one after the other. */
  lemma JoinStretches(cfg: Config, states: seq<State>, actions: seq<Action>,
      states': seq<State>, actions': seq<Action>)
    requires IsStretch(cfg, states, actions) && IsStretch(cfg, states', actions')
    requires states'[0] == states[|actions|]
    ensures IsStretch(cfg, states + states'[1..], actions + actions')
    ensures (states + states'[1..])[|actions + actions'|] == states'[|actions'|]
  {
    var ss, aa := states + states'[1..], actions + actions';
    var n := |actions|;
    assert forall i :: n <= i < |ss| ==> ss[i] == states'[i - n];
    forall i | 0 <= i < |aa| ensures IsNewestStep(cfg, ss[i], aa[i], ss[i + 1]) {
      if i < n {
        assert aa[i] == actions[i];
      } else {
        assert aa[i] == actions'[i - n];
      }
    }
  }

  /** A fair round can start in any state that keeps the invariant. */
  lemma FairRoundExists(cfg: Config, s: State) returns (round: Round)
    requires ValidConfig(cfg) && Inv(cfg, s)
    ensures IsFairRound(cfg, round) && round.states[0] == s && EndsInInv(cfg, round)
  {
    var states, actions := Turns(cfg, s, true, 5);
    var states', actions' := Turns(cfg, states[|actions|], false, 4);
    JoinStretches(cfg, states, actions, states', actions');
    StepsAppend(actions, actions', true);
    StepsAppend(actions, actions', false);
    round := Round(states + states'[1..], actions + actions');
  }

  lemma OneMoreRound(cfg: Config, rounds: seq<Round>, round: Round)
    requires FairSchedule(cfg, rounds) && IsFairRound(cfg, round)
    requires if rounds == [] then round.states[0] == Init(cfg) else Follows(rounds[|rounds| - 1], round)
    ensures FairSchedule(cfg, rounds + [round])
  {
    var longer := rounds + [round];
    forall r | 0 <= r < |longer| ensures IsFairRound(cfg, longer[r]) {
      if r < |rounds| { assert IsFairRound(cfg, rounds[r]); }
    }
    forall r | 0 < r < |longer| ensures Follows(longer[r - 1], longer[r]) {
      if r < |rounds| { assert Follows(rounds[r - 1], rounds[r]); }
    }
  }

  ghost predicate EndsInInv(cfg: Config, round: Round) {
    |round.states| == |round.actions| + 1 && Inv(cfg, round.states[|round.actions|])
  }

  /** There is a fair schedule of any number of rounds. */
  lemma {:induction false} FairScheduleExists(cfg: Config, n: nat) returns (rounds: seq<Round>)
    requires ValidConfig(cfg)
    ensures FairSchedule(cfg, rounds) && |rounds| == n
    ensures n > 0 ==> EndsInInv(cfg, rounds[n - 1])
  {
    if n == 0 {
      rounds := [];
    } else {
      InitInv(cfg);
      var before := FairScheduleExists(cfg, n - 1);
      var s := if n == 1 then Init(cfg) else before[n - 2].states[|before[n - 2].actions|];
      var round := FairRoundExists(cfg, s);
      OneMoreRound(cfg, before, round);
      rounds := before + [round];
    }
  }
}
