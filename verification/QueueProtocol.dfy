/**
 The bounded blocking queue as a machine whose steps are the pthread calls of its threads.

 Any number of producers and consumers share one mutex and two condition variables. Waiting
 releases the mutex and goes to sleep in one step; a signal wakes any non-empty set of the
 sleepers, if there are any; a broadcast wakes them all; sleepers may also wake spuriously.
 */
module QueueProtocol {
  import opened Word64

  datatype Config = Config(producers: nat, consumers: nat, items: nat, capacity: nat)

  /** What `parse_options` demands. */
  predicate ValidConfig(cfg: Config) {
    cfg.producers > 0 && cfg.consumers > 0 && cfg.capacity > 0
  }

  /** The fields of `queue_t` that the mutex protects; `items` is what the circular buffer holds. */
  datatype Shared<T> = Shared(items: seq<T>, maxObserved: nat, active: int)

  function Push<T>(q: Shared<T>, item: T): Shared<T> {
    q.(items := q.items + [item],
       maxObserved := if |q.items| + 1 > q.maxObserved then |q.items| + 1 else q.maxObserved)
  }

  function Pop<T>(q: Shared<T>): Shared<T>
    requires q.items != []
  {
    q.(items := q.items[1..])
  }

  function Finish<T>(q: Shared<T>): Shared<T> { q.(active := q.active - 1) }

  /** An item, with who produced it and as which of its items. */
  datatype Item = Item(producer: nat, index: nat)

  /** The 64-bit value the item carries: `((uint64_t)id << 56) ^ (i + 1)`. */
  function Value(item: Item): nat {
    BitXor(Wrap(item.producer * 0x100_0000_0000_0000), Wrap(item.index + 1))
  }

  datatype ProducerPc =
    | PLock | PCheck | PAsleep | PRelock | PSignal | PUnlock | PAccount
    | FLock | FDecrement | FBroadcast | FUnlock | PDone
  datatype ConsumerPc = CLock | CCheck | CAsleep | CRelock | CSignal | CUnlock | CAccount | CExit | CDone

  datatype Producer = Producer(pc: ProducerPc, id: nat, produced: nat, checksum: nat, fullWaits: nat)
  datatype Consumer = Consumer(pc: ConsumerPc, item: Item, consumed: nat, checksum: nat, emptyWaits: nat)

  datatype Owner = Free | OfProducer(p: nat) | OfConsumer(c: nat)

  /** `pushed` and `popped` record what went through the queue, in order. */
  datatype State = State(owner: Owner, q: Shared<Item>, ps: seq<Producer>, cs: seq<Consumer>,
                         pushed: seq<Item>, popped: seq<Item>)

  datatype Action =
    | StepProducer(p: nat, wake: set<nat>)
    | StepConsumer(c: nat, wake: set<nat>)
    | SpuriousProducer(p: nat)
    | SpuriousConsumer(c: nat)

  predicate IsSpurious(a: Action) { a.SpuriousProducer? || a.SpuriousConsumer? }

  function NextPc(cfg: Config, produced: nat): ProducerPc {
    if produced < cfg.items then PLock else FLock
  }

  function NewProducers(cfg: Config, n: nat): (ps: seq<Producer>)
    ensures |ps| == n && forall id :: 0 <= id < n ==> ps[id] == Producer(NextPc(cfg, 0), id, 0, 0, 0)
  {
    if n == 0 then [] else NewProducers(cfg, n - 1) + [Producer(NextPc(cfg, 0), n - 1, 0, 0, 0)]
  }

  function NewConsumers(n: nat): (cs: seq<Consumer>)
    ensures |cs| == n && forall c :: 0 <= c < n ==> cs[c] == Consumer(CLock, Item(0, 0), 0, 0, 0)
  {
    if n == 0 then [] else NewConsumers(n - 1) + [Consumer(CLock, Item(0, 0), 0, 0, 0)]
  }

  function Init(cfg: Config): State {
    State(Free, Shared([], 0, cfg.producers), NewProducers(cfg, cfg.producers), NewConsumers(cfg.consumers), [], [])
  }

  predicate SignalsConsumers(cs: seq<Consumer>, wake: set<nat>) {
    && (forall c :: c in wake ==> c < |cs| && cs[c].pc == CAsleep)
    && (wake == {} ==> forall c :: 0 <= c < |cs| ==> cs[c].pc != CAsleep)
  }

  predicate SignalsProducers(ps: seq<Producer>, wake: set<nat>) {
    && (forall p :: p in wake ==> p < |ps| && ps[p].pc == PAsleep)
    && (wake == {} ==> forall p :: 0 <= p < |ps| ==> ps[p].pc != PAsleep)
  }

  function WakeConsumers(cs: seq<Consumer>, wake: set<nat>): seq<Consumer> {
    seq(|cs|, c requires 0 <= c < |cs| => if c in wake then cs[c].(pc := CRelock) else cs[c])
  }

  function WakeProducers(ps: seq<Producer>, wake: set<nat>): seq<Producer> {
    seq(|ps|, p requires 0 <= p < |ps| => if p in wake then ps[p].(pc := PRelock) else ps[p])
  }

  function Sleepers(cs: seq<Consumer>): set<nat> {
    set c: nat | 0 <= c < |cs| && cs[c].pc == CAsleep
  }

  predicate Enabled(s: State, a: Action) {
    match a
    case StepProducer(p, wake) => p < |s.ps| && (
      match s.ps[p].pc
      case PLock => s.owner == Free
      case PRelock => s.owner == Free
      case FLock => s.owner == Free
      case PSignal => SignalsConsumers(s.cs, wake)
      case PAsleep => false
      case PDone => false
      case _ => true)
    case StepConsumer(c, wake) => c < |s.cs| && (
      match s.cs[c].pc
      case CLock => s.owner == Free
      case CRelock => s.owner == Free
      case CSignal => SignalsProducers(s.ps, wake)
      case CAsleep => false
      case CDone => false
      case _ => true)
    case SpuriousProducer(p) => p < |s.ps| && s.ps[p].pc == PAsleep
    case SpuriousConsumer(c) => c < |s.cs| && s.cs[c].pc == CAsleep
  }

  function ProducerStep(cfg: Config, s: State, p: nat, wake: set<nat>): State
    requires p < |s.ps|
  {
    var me := s.ps[p];
    var item := Item(me.id, me.produced);
    match me.pc
    case PLock => s.(owner := OfProducer(p), ps := s.ps[p := me.(pc := PCheck)])
    case PRelock => s.(owner := OfProducer(p), ps := s.ps[p := me.(pc := PCheck)])
    case PCheck =>
      if |s.q.items| == cfg.capacity
      then s.(owner := Free, ps := s.ps[p := me.(pc := PAsleep, fullWaits := me.fullWaits + 1)])
      else s.(q := Push(s.q, item), pushed := s.pushed + [item], ps := s.ps[p := me.(pc := PSignal)])
    case PSignal => s.(cs := WakeConsumers(s.cs, wake), ps := s.ps[p := me.(pc := PUnlock)])
    case PUnlock => s.(owner := Free, ps := s.ps[p := me.(pc := PAccount)])
    case PAccount =>
      s.(ps := s.ps[p := me.(pc := NextPc(cfg, me.produced + 1), produced := me.produced + 1,
                             checksum := BitXor(me.checksum, Value(item)))])
    case FLock => s.(owner := OfProducer(p), ps := s.ps[p := me.(pc := FDecrement)])
    case FDecrement => s.(q := Finish(s.q), ps := s.ps[p := me.(pc := FBroadcast)])
    case FBroadcast => s.(cs := WakeConsumers(s.cs, Sleepers(s.cs)), ps := s.ps[p := me.(pc := FUnlock)])
    case FUnlock => s.(owner := Free, ps := s.ps[p := me.(pc := PDone)])
    case PAsleep => s
    case PDone => s
  }

  function ConsumerStep(s: State, c: nat, wake: set<nat>): State
    requires c < |s.cs|
  {
    var me := s.cs[c];
    match me.pc
    case CLock => s.(owner := OfConsumer(c), cs := s.cs[c := me.(pc := CCheck)])
    case CRelock => s.(owner := OfConsumer(c), cs := s.cs[c := me.(pc := CCheck)])
    case CCheck =>
      if s.q.items != []
      then s.(q := Pop(s.q), popped := s.popped + [s.q.items[0]],
              cs := s.cs[c := me.(pc := CSignal, item := s.q.items[0])])
      else if s.q.active > 0
      then s.(owner := Free, cs := s.cs[c := me.(pc := CAsleep, emptyWaits := me.emptyWaits + 1)])
      else if s.q.active == 0
      then s.(cs := s.cs[c := me.(pc := CExit)])
      else s // fewer than no producers: excluded by the invariant
    case CSignal => s.(ps := WakeProducers(s.ps, wake), cs := s.cs[c := me.(pc := CUnlock)])
    case CUnlock => s.(owner := Free, cs := s.cs[c := me.(pc := CAccount)])
    case CAccount =>
      s.(cs := s.cs[c := me.(pc := CLock, consumed := me.consumed + 1,
                             checksum := BitXor(me.checksum, Value(me.item)))])
    case CExit => s.(owner := Free, cs := s.cs[c := me.(pc := CDone)])
    case CAsleep => s
    case CDone => s
  }

  function Apply(cfg: Config, s: State, a: Action): State
    requires Enabled(s, a)
  {
    match a
    case StepProducer(p, wake) => ProducerStep(cfg, s, p, wake)
    case StepConsumer(c, wake) => ConsumerStep(s, c, wake)
    case SpuriousProducer(p) => s.(ps := s.ps[p := s.ps[p].(pc := PRelock)])
    case SpuriousConsumer(c) => s.(cs := s.cs[c := s.cs[c].(pc := CRelock)])
  }

  ghost predicate IsRun(cfg: Config, states: seq<State>, actions: seq<Action>) {
    && |states| == |actions| + 1
    && states[0] == Init(cfg)
    && forall i :: 0 <= i < |actions| ==>
         Enabled(states[i], actions[i]) && states[i + 1] == Apply(cfg, states[i], actions[i])
  }
}
