/** The inductive invariant of the blocking queue, one conjunct at a time. */
module QueueSafety {
  import opened Word64
  import opened Folds
  import opened QueueProtocol

  // ---------- The mutex ----------

  predicate HoldsP(pc: ProducerPc) {
    pc == PCheck || pc == PSignal || pc == PUnlock || pc == FDecrement || pc == FBroadcast || pc == FUnlock
  }

  predicate HoldsC(pc: ConsumerPc) {
    pc == CCheck || pc == CSignal || pc == CUnlock || pc == CExit
  }

  /** The mutex has the one owner whose program counter is inside a critical section. */
  ghost predicate LockOk(owner: Owner, ps: seq<Producer>, cs: seq<Consumer>) {
    && (forall p :: 0 <= p < |ps| ==> (HoldsP(ps[p].pc) <==> owner == OfProducer(p)))
    && (forall c :: 0 <= c < |cs| ==> (HoldsC(cs[c].pc) <==> owner == OfConsumer(c)))
    && (owner.OfProducer? ==> owner.p < |ps|)
    && (owner.OfConsumer? ==> owner.c < |cs|)
  }

  lemma LockKeptByProducer(cfg: Config, s: State, p: nat, wake: set<nat>)
    requires LockOk(s.owner, s.ps, s.cs) && Enabled(s, StepProducer(p, wake))
    ensures var s' := ProducerStep(cfg, s, p, wake);
      LockOk(s'.owner, s'.ps, s'.cs) && |s'.ps| == |s.ps| && |s'.cs| == |s.cs|
  {
  }

  lemma LockKeptByConsumer(s: State, c: nat, wake: set<nat>)
    requires LockOk(s.owner, s.ps, s.cs) && Enabled(s, StepConsumer(c, wake))
    ensures var s' := ConsumerStep(s, c, wake);
      LockOk(s'.owner, s'.ps, s'.cs) && |s'.ps| == |s.ps| && |s'.cs| == |s.cs|
  {
  }

  lemma LockKept(cfg: Config, s: State, a: Action)
    requires LockOk(s.owner, s.ps, s.cs) && Enabled(s, a)
    ensures var s' := Apply(cfg, s, a);
      LockOk(s'.owner, s'.ps, s'.cs) && |s'.ps| == |s.ps| && |s'.cs| == |s.cs|
  {
    match a
    case StepProducer(p, wake) => LockKeptByProducer(cfg, s, p, wake);
    case StepConsumer(c, wake) => LockKeptByConsumer(s, c, wake);
    case SpuriousProducer(_) =>
    case SpuriousConsumer(_) =>
  }

  // ---------- The queue and its history ----------

  /** First in, first out: what was popped, then what is still queued, is what was pushed. */
  ghost predicate QueueOk(cfg: Config, q: Shared<Item>, pushed: seq<Item>, popped: seq<Item>) {
    && popped + q.items == pushed
    && |q.items| <= q.maxObserved <= cfg.capacity
  }

  lemma QueueKept(cfg: Config, s: State, a: Action)
    requires QueueOk(cfg, s.q, s.pushed, s.popped) && Enabled(s, a)
    ensures var s' := Apply(cfg, s, a); QueueOk(cfg, s'.q, s'.pushed, s'.popped)
  {
    if a.StepConsumer? && s.cs[a.c].pc == CCheck && s.q.items != [] {
      assert s.popped + s.q.items == s.popped + [s.q.items[0]] + s.q.items[1..];
    }
  }

  function CountBy(log: seq<Item>, producer: nat): nat {
    if log == [] then 0
    else CountBy(log[..|log| - 1], producer) + (if log[|log| - 1].producer == producer then 1 else 0)
  }

  /** Each producer's items went in by index, none twice and none left out. */
  ghost predicate OrderOk(log: seq<Item>) {
    forall j :: 0 <= j < |log| ==> log[j].index == CountBy(log[..j], log[j].producer)
  }

  predicate InFlightP(pc: ProducerPc) { pc == PSignal || pc == PUnlock || pc == PAccount }
  predicate InFlightC(pc: ConsumerPc) { pc == CSignal || pc == CUnlock || pc == CAccount }
  predicate FinishingP(pc: ProducerPc) {
    pc == FLock || pc == FDecrement || pc == FBroadcast || pc == FUnlock || pc == PDone
  }

  function Inserted(p: Producer): nat { p.produced + (if InFlightP(p.pc) then 1 else 0) }
  function Taken(c: Consumer): nat { c.consumed + (if InFlightC(c.pc) then 1 else 0) }

  /** A producer finishes after exactly its items. */
  ghost predicate RecordsOk(cfg: Config, ps: seq<Producer>) {
    && |ps| == cfg.producers
    && (forall p :: 0 <= p < |ps| ==>
          ps[p].id == p &&
          (if FinishingP(ps[p].pc) then ps[p].produced == cfg.items else ps[p].produced < cfg.items))
  }

  ghost predicate HistoryOk(ps: seq<Producer>, pushed: seq<Item>) {
    && OrderOk(pushed)
    && (forall j :: 0 <= j < |pushed| ==> pushed[j].producer < |ps|)
    && (forall p :: 0 <= p < |ps| ==> CountBy(pushed, p) == Inserted(ps[p]))
  }

  lemma PushCounts(log: seq<Item>, item: Item, producer: nat)
    ensures CountBy(log + [item], producer) == CountBy(log, producer) + (if item.producer == producer then 1 else 0)
  {
    assert (log + [item])[..|log|] == log;
  }

  lemma PushOrder(log: seq<Item>, item: Item)
    requires OrderOk(log) && item.index == CountBy(log, item.producer)
    ensures OrderOk(log + [item])
  {
    forall j | 0 <= j < |log| + 1
      ensures (log + [item])[j].index == CountBy((log + [item])[..j], (log + [item])[j].producer)
    {
      assert (log + [item])[..j] == log[..j];
      assert log[..|log|] == log;
    }
  }

  lemma RecordsKept(cfg: Config, s: State, a: Action)
    requires RecordsOk(cfg, s.ps) && Enabled(s, a)
    ensures RecordsOk(cfg, Apply(cfg, s, a).ps)
  {
  }

  lemma PushKeepsHistory(ps: seq<Producer>, pushed: seq<Item>, p: nat)
    requires HistoryOk(ps, pushed) && p < |ps| && ps[p].pc == PCheck && ps[p].id == p
    ensures HistoryOk(ps[p := ps[p].(pc := PSignal)], pushed + [Item(p, ps[p].produced)])
  {
    var item, ps' := Item(p, ps[p].produced), ps[p := ps[p].(pc := PSignal)];
    PushOrder(pushed, item);
    forall k | 0 <= k < |ps| ensures CountBy(pushed + [item], k) == Inserted(ps'[k]) {
      PushCounts(pushed, item, k);
    }
  }

  lemma MoveKeepsHistory(ps: seq<Producer>, ps': seq<Producer>, pushed: seq<Item>)
    requires HistoryOk(ps, pushed) && |ps'| == |ps|
    requires forall p :: 0 <= p < |ps| ==> Inserted(ps'[p]) == Inserted(ps[p])
    ensures HistoryOk(ps', pushed)
  {
  }

  lemma HistoryKept(cfg: Config, s: State, a: Action)
    requires RecordsOk(cfg, s.ps) && HistoryOk(s.ps, s.pushed) && Enabled(s, a)
    ensures var s' := Apply(cfg, s, a); HistoryOk(s'.ps, s'.pushed)
  {
    var s' := Apply(cfg, s, a);
    if a.StepProducer? && s.ps[a.p].pc == PCheck && |s.q.items| != cfg.capacity {
      PushKeepsHistory(s.ps, s.pushed, a.p);
    } else {
      MoveKeepsHistory(s.ps, s'.ps, s.pushed);
    }
  }

  // ---------- Unfinished producers ----------

  function Unfinished(p: Producer): nat {
    if p.pc == FBroadcast || p.pc == FUnlock || p.pc == PDone then 0 else 1
  }

  ghost predicate ActiveOk(ps: seq<Producer>, active: int) {
    active == Sum(ps, Unfinished)
  }

  lemma WakeProducersSame(ps: seq<Producer>, wake: set<nat>)
    requires SignalsProducers(ps, wake)
    ensures var ps' := WakeProducers(ps, wake);
      Sum(ps', Unfinished) == Sum(ps, Unfinished) && Sum(ps', Inserted) == Sum(ps, Inserted)
  {
    SumSame(ps, WakeProducers(ps, wake), Unfinished);
    SumSame(ps, WakeProducers(ps, wake), Inserted);
  }

  lemma ActiveKept(cfg: Config, s: State, a: Action)
    requires ActiveOk(s.ps, s.q.active) && Enabled(s, a)
    ensures var s' := Apply(cfg, s, a); ActiveOk(s'.ps, s'.q.active)
  {
    var s' := Apply(cfg, s, a);
    match a
    case StepProducer(p, _) => SumUpdate(s.ps, p, s'.ps[p], Unfinished);
    case SpuriousProducer(p) => SumUpdate(s.ps, p, s'.ps[p], Unfinished);
    case StepConsumer(c, wake) => if s.cs[c].pc == CSignal { WakeProducersSame(s.ps, wake); }
    case SpuriousConsumer(_) =>
  }

  // ---------- No lost wakeup for a consumer ----------

  function RecheckC(c: Consumer): nat { if c.pc == CRelock || c.pc == CCheck then 1 else 0 }
  function RecheckP(p: Producer): nat { if p.pc == PRelock || p.pc == PCheck then 1 else 0 }

  function SignallingP(owner: Owner, ps: seq<Producer>): nat {
    if owner.OfProducer? && owner.p < |ps| && ps[owner.p].pc == PSignal then 1 else 0
  }

  function SignallingC(owner: Owner, cs: seq<Consumer>): nat {
    if owner.OfConsumer? && owner.c < |cs| && cs[owner.c].pc == CSignal then 1 else 0
  }

  predicate Broadcasting(owner: Owner, ps: seq<Producer>) {
    owner.OfProducer? && owner.p < |ps| && ps[owner.p].pc == FBroadcast
  }

  predicate SleepsC(cs: seq<Consumer>) { exists c :: 0 <= c < |cs| && cs[c].pc == CAsleep }
  predicate SleepsP(ps: seq<Producer>) { exists p :: 0 <= p < |ps| && ps[p].pc == PAsleep }

  /** While a consumer sleeps, each queued item has a consumer on its way or a signal still to come. */
  ghost predicate ConsumersAwake(s: State) {
    SleepsC(s.cs) ==>
      && |s.q.items| <= Sum(s.cs, RecheckC) + SignallingP(s.owner, s.ps)
      && (s.q.active > 0 || Broadcasting(s.owner, s.ps))
  }

  /** While a producer sleeps, each free slot has a producer on its way or a signal still to come. */
  ghost predicate ProducersAwake(cfg: Config, s: State) {
    SleepsP(s.ps) ==> cfg.capacity <= |s.q.items| + Sum(s.ps, RecheckP) + SignallingC(s.owner, s.cs)
  }

  lemma WakeConsumersCounts(cs: seq<Consumer>, wake: set<nat>)
    requires SignalsConsumers(cs, wake)
    ensures Sum(WakeConsumers(cs, wake), RecheckC) >= Sum(cs, RecheckC) + (if wake == {} then 0 else 1)
  {
    var cs' := WakeConsumers(cs, wake);
    if wake == {} {
      SumMonotone(cs, cs', RecheckC);
    } else {
      var c :| c in wake;
      SumGains(cs, cs', RecheckC, c, 1);
    }
  }

  lemma WakeProducersCounts(ps: seq<Producer>, wake: set<nat>)
    requires SignalsProducers(ps, wake)
    ensures Sum(WakeProducers(ps, wake), RecheckP) >= Sum(ps, RecheckP) + (if wake == {} then 0 else 1)
  {
    var ps' := WakeProducers(ps, wake);
    if wake == {} {
      SumMonotone(ps, ps', RecheckP);
    } else {
      var p :| p in wake;
      SumGains(ps, ps', RecheckP, p, 1);
    }
  }

  lemma ConsumersAwakeByProducer(cfg: Config, s: State, p: nat, wake: set<nat>)
    requires LockOk(s.owner, s.ps, s.cs) && ConsumersAwake(s) && Enabled(s, StepProducer(p, wake))
    ensures ConsumersAwake(Apply(cfg, s, StepProducer(p, wake)))
  {
    var s' := Apply(cfg, s, StepProducer(p, wake));
    if s.ps[p].pc == PSignal {
      WakeConsumersCounts(s.cs, wake);
      if wake == {} { assert !SleepsC(s'.cs); }
    } else if s.ps[p].pc == FBroadcast {
      assert !SleepsC(s'.cs);
    } else {
      assert s'.cs == s.cs;
    }
  }

  lemma ConsumersAwakeByConsumer(cfg: Config, s: State, c: nat, wake: set<nat>)
    requires LockOk(s.owner, s.ps, s.cs) && ConsumersAwake(s) && Enabled(s, StepConsumer(c, wake))
    ensures ConsumersAwake(Apply(cfg, s, StepConsumer(c, wake)))
  {
    var s' := Apply(cfg, s, StepConsumer(c, wake));
    SumUpdate(s.cs, c, s'.cs[c], RecheckC);
    if s'.cs[c].pc != CAsleep && SleepsC(s'.cs) {
      var k :| 0 <= k < |s'.cs| && s'.cs[k].pc == CAsleep;
      assert s.cs[k].pc == CAsleep;
    }
  }

  lemma ProducersAwakeByProducer(cfg: Config, s: State, p: nat, wake: set<nat>)
    requires LockOk(s.owner, s.ps, s.cs) && ProducersAwake(cfg, s) && Enabled(s, StepProducer(p, wake))
    ensures ProducersAwake(cfg, Apply(cfg, s, StepProducer(p, wake)))
  {
    var s' := Apply(cfg, s, StepProducer(p, wake));
    SumUpdate(s.ps, p, s'.ps[p], RecheckP);
    if s'.ps[p].pc != PAsleep && SleepsP(s'.ps) {
      var k :| 0 <= k < |s'.ps| && s'.ps[k].pc == PAsleep;
      assert s.ps[k].pc == PAsleep;
    }
  }

  lemma ProducersAwakeByConsumer(cfg: Config, s: State, c: nat, wake: set<nat>)
    requires LockOk(s.owner, s.ps, s.cs) && ProducersAwake(cfg, s) && Enabled(s, StepConsumer(c, wake))
    ensures ProducersAwake(cfg, Apply(cfg, s, StepConsumer(c, wake)))
  {
    var s' := Apply(cfg, s, StepConsumer(c, wake));
    if s.cs[c].pc == CSignal {
      WakeProducersCounts(s.ps, wake);
      if wake == {} { assert !SleepsP(s'.ps); }
    } else {
      assert s'.ps == s.ps;
    }
  }

  lemma AwakeKept(cfg: Config, s: State, a: Action)
    requires LockOk(s.owner, s.ps, s.cs) && ConsumersAwake(s) && ProducersAwake(cfg, s) && Enabled(s, a)
    ensures var s' := Apply(cfg, s, a); ConsumersAwake(s') && ProducersAwake(cfg, s')
  {
    var s' := Apply(cfg, s, a);
    match a
    case StepProducer(p, wake) =>
      ConsumersAwakeByProducer(cfg, s, p, wake);
      ProducersAwakeByProducer(cfg, s, p, wake);
    case StepConsumer(c, wake) =>
      ConsumersAwakeByConsumer(cfg, s, c, wake);
      ProducersAwakeByConsumer(cfg, s, c, wake);
    case SpuriousProducer(p) => SumUpdate(s.ps, p, s'.ps[p], RecheckP);
    case SpuriousConsumer(c) => SumUpdate(s.cs, c, s'.cs[c], RecheckC);
  }

  // ---------- A consumer that gives up ----------

  /** A consumer leaves only when the queue is empty and no producer can still push. */
  ghost predicate ExitOk(s: State) {
    (exists c :: 0 <= c < |s.cs| && (s.cs[c].pc == CExit || s.cs[c].pc == CDone)) ==>
      s.q.items == [] && s.q.active == 0
  }

  lemma ExitKept(cfg: Config, s: State, a: Action)
    requires LockOk(s.owner, s.ps, s.cs) && ActiveOk(s.ps, s.q.active) && ExitOk(s) && Enabled(s, a)
    ensures ExitOk(Apply(cfg, s, a))
  {
    var s' := Apply(cfg, s, a);
    if a.StepProducer? { SumAtLeast(s.ps, a.p, Unfinished); }
    if k :| 0 <= k < |s'.cs| && (s'.cs[k].pc == CExit || s'.cs[k].pc == CDone) {
      if s'.cs[k].pc == CExit && a.StepConsumer? && a.c == k && s.cs[k].pc == CCheck {
        assert s'.q.active == 0;
      } else {
        assert s.cs[k].pc == CExit || s.cs[k].pc == CDone;
      }
    }
  }

  // ---------- Totals and checksums ----------

  /** A thread's checksum, with the item it has moved but not yet accounted for. */
  function HeldP(p: Producer): nat {
    if InFlightP(p.pc) then BitXor(p.checksum, Value(Item(p.id, p.produced))) else p.checksum
  }

  function HeldC(c: Consumer): nat {
    if InFlightC(c.pc) then BitXor(c.checksum, Value(c.item)) else c.checksum
  }

  ghost predicate LedgerP(ps: seq<Producer>, pushed: seq<Item>) {
    Sum(ps, Inserted) == |pushed| && Xor(ps, HeldP) == Xor(pushed, Value)
  }

  ghost predicate LedgerC(cs: seq<Consumer>, popped: seq<Item>) {
    Sum(cs, Taken) == |popped| && Xor(cs, HeldC) == Xor(popped, Value)
  }

  lemma XorTwice(a: nat, b: nat)
    ensures BitXor(a, BitXor(a, b)) == b
  {
    XorAssociates(a, a, b);
    XorCancels(a);
  }

  /** Record `i` takes `item` in: the total and the exclusive-or grow by exactly that. */
  lemma LedgerGrows<T>(s: seq<T>, i: nat, v: T, count: T -> nat, held: T -> nat, log: seq<Item>, item: Item)
    requires i < |s| && Sum(s, count) == |log| && Xor(s, held) == Xor(log, Value)
    requires count(v) == count(s[i]) + 1 && held(v) == BitXor(held(s[i]), Value(item))
    ensures Sum(s[i := v], count) == |log + [item]|
    ensures Xor(s[i := v], held) == Xor(log + [item], Value)
  {
    SumUpdate(s, i, v, count);
    XorUpdate(s, i, v, held);
    XorTwice(held(s[i]), Value(item));
    XorAppend(log, item, Value);
  }

  lemma PushBooked(ps: seq<Producer>, pushed: seq<Item>, p: nat)
    requires p < |ps| && ps[p].pc == PCheck && LedgerP(ps, pushed)
    ensures LedgerP(ps[p := ps[p].(pc := PSignal)], pushed + [Item(ps[p].id, ps[p].produced)])
  {
    LedgerGrows(ps, p, ps[p].(pc := PSignal), Inserted, HeldP, pushed, Item(ps[p].id, ps[p].produced));
  }

  lemma PopBooked(cs: seq<Consumer>, popped: seq<Item>, c: nat, item: Item)
    requires c < |cs| && cs[c].pc == CCheck && LedgerC(cs, popped)
    ensures LedgerC(cs[c := cs[c].(pc := CSignal, item := item)], popped + [item])
  {
    LedgerGrows(cs, c, cs[c].(pc := CSignal, item := item), Taken, HeldC, popped, item);
  }

  lemma MovesBookedP(ps: seq<Producer>, ps': seq<Producer>, pushed: seq<Item>)
    requires LedgerP(ps, pushed) && |ps'| == |ps|
    requires forall p :: 0 <= p < |ps| ==> Inserted(ps'[p]) == Inserted(ps[p]) && HeldP(ps'[p]) == HeldP(ps[p])
    ensures LedgerP(ps', pushed)
  {
    SumSame(ps, ps', Inserted);
    XorSame(ps, ps', HeldP);
  }

  lemma MovesBookedC(cs: seq<Consumer>, cs': seq<Consumer>, popped: seq<Item>)
    requires LedgerC(cs, popped) && |cs'| == |cs|
    requires forall c :: 0 <= c < |cs| ==> Taken(cs'[c]) == Taken(cs[c]) && HeldC(cs'[c]) == HeldC(cs[c])
    ensures LedgerC(cs', popped)
  {
    SumSame(cs, cs', Taken);
    XorSame(cs, cs', HeldC);
  }

  predicate Pushing(cfg: Config, s: State, a: Action) {
    a.StepProducer? && a.p < |s.ps| && s.ps[a.p].pc == PCheck && |s.q.items| != cfg.capacity
  }

  predicate Popping(s: State, a: Action) {
    a.StepConsumer? && a.c < |s.cs| && s.cs[a.c].pc == CCheck && s.q.items != []
  }

  /** Other steps insert nothing. */
  lemma NothingInserted(cfg: Config, s: State, a: Action)
    requires Enabled(s, a) && !Pushing(cfg, s, a)
    ensures var s' := Apply(cfg, s, a);
      && s'.pushed == s.pushed && |s'.ps| == |s.ps|
      && forall p :: 0 <= p < |s.ps| ==> Inserted(s'.ps[p]) == Inserted(s.ps[p]) && HeldP(s'.ps[p]) == HeldP(s.ps[p])
  {
  }

  /** Other steps take nothing. */
  lemma NothingTaken(cfg: Config, s: State, a: Action)
    requires Enabled(s, a) && !Popping(s, a)
    ensures var s' := Apply(cfg, s, a);
      && s'.popped == s.popped && |s'.cs| == |s.cs|
      && forall c :: 0 <= c < |s.cs| ==> Taken(s'.cs[c]) == Taken(s.cs[c]) && HeldC(s'.cs[c]) == HeldC(s.cs[c])
  {
  }

  lemma LedgerPKept(cfg: Config, s: State, a: Action)
    requires LedgerP(s.ps, s.pushed) && Enabled(s, a)
    ensures var s' := Apply(cfg, s, a); LedgerP(s'.ps, s'.pushed)
  {
    if Pushing(cfg, s, a) {
      PushBooked(s.ps, s.pushed, a.p);
    } else {
      NothingInserted(cfg, s, a);
      MovesBookedP(s.ps, Apply(cfg, s, a).ps, s.pushed);
    }
  }

  lemma LedgerCKept(cfg: Config, s: State, a: Action)
    requires LedgerC(s.cs, s.popped) && Enabled(s, a)
    ensures var s' := Apply(cfg, s, a); LedgerC(s'.cs, s'.popped)
  {
    if Popping(s, a) {
      PopBooked(s.cs, s.popped, a.c, s.q.items[0]);
    } else {
      NothingTaken(cfg, s, a);
      MovesBookedC(s.cs, Apply(cfg, s, a).cs, s.popped);
    }
  }

  // ---------- All together ----------

  /** Everything that decides who may sleep and who must be awake. */
  ghost predicate WaitingOk(cfg: Config, s: State) {
    && |s.cs| == cfg.consumers
    && LockOk(s.owner, s.ps, s.cs)
    && ActiveOk(s.ps, s.q.active)
    && ConsumersAwake(s) && ProducersAwake(cfg, s)
    && ExitOk(s)
  }

  ghost predicate Inv(cfg: Config, s: State) {
    && WaitingOk(cfg, s)
    && QueueOk(cfg, s.q, s.pushed, s.popped)
    && RecordsOk(cfg, s.ps) && HistoryOk(s.ps, s.pushed)
    && LedgerP(s.ps, s.pushed) && LedgerC(s.cs, s.popped)
  }

  lemma InitInv(cfg: Config)
    requires ValidConfig(cfg)
    ensures Inv(cfg, Init(cfg))
  {
    InitWaiting(cfg);
    InitLedgers(cfg);
  }

  lemma InitWaiting(cfg: Config)
    requires ValidConfig(cfg)
    ensures WaitingOk(cfg, Init(cfg))
  {
    SumConstant(Init(cfg).ps, Unfinished, 1);
  }

  lemma InitLedgers(cfg: Config)
    ensures LedgerP(Init(cfg).ps, []) && LedgerC(Init(cfg).cs, [])
  {
    var s := Init(cfg);
    SumZero(s.ps, Inserted);
    SumZero(s.cs, Taken);
    XorZero(s.ps, HeldP);
    XorZero(s.cs, HeldC);
  }

  lemma {:induction false} XorZero<T>(s: seq<T>, f: T -> nat)
    requires forall i :: 0 <= i < |s| ==> f(s[i]) == 0
    ensures Xor(s, f) == 0
  {
    if s != [] { XorZero(s[1..], f); }
  }

  lemma StepInv(cfg: Config, s: State, a: Action)
    requires Inv(cfg, s) && Enabled(s, a)
    ensures Inv(cfg, Apply(cfg, s, a))
  {
    LockKept(cfg, s, a);
    QueueKept(cfg, s, a);
    RecordsKept(cfg, s, a);
    HistoryKept(cfg, s, a);
    ActiveKept(cfg, s, a);
    AwakeKept(cfg, s, a);
    ExitKept(cfg, s, a);
    LedgerPKept(cfg, s, a);
    LedgerCKept(cfg, s, a);
  }

  lemma {:induction false} RunInv(cfg: Config, states: seq<State>, actions: seq<Action>, i: nat)
    requires ValidConfig(cfg) && IsRun(cfg, states, actions) && i < |states|
    ensures Inv(cfg, states[i])
  {
    if i == 0 {
      InitInv(cfg);
    } else {
      RunInv(cfg, states, actions, i - 1);
      StepInv(cfg, states[i - 1], actions[i - 1]);
    }
  }
}
