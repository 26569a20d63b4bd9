/**
 The lock-free single-producer single-consumer ring as a machine of atomic steps under C11
 release/acquire (ISO/IEC 9899:2011, sections 5.1.2.4 and 7.17.3).

 Each index keeps the history of all its stores. A load returns any store that is not older
 than one the thread already knows of. A release store carries the storer's view and an acquire
 load joins it. Happens-before on the plain buffer is tracked with clocks: a view says how many
 buffer writes of the producer and how many buffer reads of the consumer it is ordered after.
 */
module RingProtocol {
  import opened Word64

  datatype Config = Config(capacity: nat, messages: nat)

  predicate ValidConfig(cfg: Config) {
    IsPowerOfTwo(cfg.capacity) && cfg.capacity < TWO64
  }

  /** What a thread, or a store it released, is ordered after. */
  datatype View = View(head: nat, tail: nat, writes: nat, fetches: nat)

  function Max(a: nat, b: nat): nat { if a < b then b else a }

  function Join(u: View, v: View): View {
    View(Max(u.head, v.head), Max(u.tail, v.tail), Max(u.writes, v.writes), Max(u.fetches, v.fetches))
  }

  /** One store to `head` or `tail`: the value and the view released with it. */
  datatype Store = Store(value: word, view: View)

  /** A plain buffer word with the clocks of its last write and last read (0 for none). */
  datatype Slot = Slot(value: word, writeStamp: nat, readStamp: nat)

  datatype ProducerPc = PLoadTail | PLoadHead | PFullHit | PWrite | PPublish | PDone
  datatype ConsumerPc = CLoadHead | CLoadTail | CRead | CPublish | CDone

  datatype Producer = Producer(pc: ProducerPc, sent: nat, tail: word, view: View)
  datatype Consumer = Consumer(pc: ConsumerPc, head: word, value: word, popped: seq<word>, checksum: word, view: View)

  datatype State = State(heads: seq<Store>, tails: seq<Store>, slots: seq<Slot>, fullHits: word,
                         p: Producer, c: Consumer, race: bool)

  /** A step of one thread; the argument is which store a load returns, or what a racing read sees. */
  datatype Action =
    | LoadTailRelaxed(k: nat)
    | LoadHeadAcquire(k: nat)
    | CountFullHit
    | WriteSlot
    | PublishTail
    | LoadHeadRelaxed(k: nat)
    | LoadTailAcquire(k: nat)
    | ReadSlot(garbage: word)
    | PublishHead

  /** The value `producer_main` pushes in its iteration `i`. */
  function Item(i: nat): word { Wrap(i + 1) }

  const NOTHING := View(0, 0, 0, 0)

  function Init(cfg: Config): State {
    State([Store(0, NOTHING)], [Store(0, NOTHING)], seq(cfg.capacity, _ => Slot(0, 0, 0)), 0,
          Producer(if cfg.messages == 0 then PDone else PLoadTail, 0, 0, NOTHING),
          Consumer(if cfg.messages == 0 then CDone else CLoadHead, 0, 0, [], 0, NOTHING),
          false)
  }

  function SlotIndex(cfg: Config, index: word): nat
    requires cfg.capacity > 0
  {
    And(index, cfg.capacity - 1)
  }

  predicate Enabled(cfg: Config, s: State, a: Action) {
    match a
    case LoadTailRelaxed(k) => s.p.pc == PLoadTail && s.p.view.tail <= k < |s.tails|
    case LoadHeadAcquire(k) => s.p.pc == PLoadHead && s.p.view.head <= k < |s.heads|
    case CountFullHit => s.p.pc == PFullHit
    case WriteSlot => s.p.pc == PWrite && cfg.capacity > 0 && SlotIndex(cfg, s.p.tail) < |s.slots|
    case PublishTail => s.p.pc == PPublish
    case LoadHeadRelaxed(k) => s.c.pc == CLoadHead && s.c.view.head <= k < |s.heads|
    case LoadTailAcquire(k) => s.c.pc == CLoadTail && s.c.view.tail <= k < |s.tails|
    case ReadSlot(_) => s.c.pc == CRead && cfg.capacity > 0 && SlotIndex(cfg, s.c.head) < |s.slots|
    case PublishHead => s.c.pc == CPublish
  }

  function Apply(cfg: Config, s: State, a: Action): State
    requires Enabled(cfg, s, a)
  {
    match a
    case LoadTailRelaxed(k) =>
      s.(p := s.p.(pc := PLoadHead, tail := s.tails[k].value, view := s.p.view.(tail := k)))
    case LoadHeadAcquire(k) =>
      var full := Sub(s.p.tail, s.heads[k].value) >= cfg.capacity;
      s.(p := s.p.(pc := if full then PFullHit else PWrite,
                   view := Join(s.p.view.(head := k), s.heads[k].view)))
    case CountFullHit =>
      s.(fullHits := Wrap(s.fullHits + 1), p := s.p.(pc := PLoadTail))
    case WriteSlot =>
      var j := SlotIndex(cfg, s.p.tail);
      var clock := s.p.view.writes + 1;
      s.(slots := s.slots[j := s.slots[j].(value := Item(s.p.sent), writeStamp := clock)],
         race := s.race || s.slots[j].readStamp > s.p.view.fetches,
         p := s.p.(pc := PPublish, view := s.p.view.(writes := clock)))
    case PublishTail =>
      var v := s.p.view.(tail := |s.tails|);
      s.(tails := s.tails + [Store(Wrap(s.p.tail + 1), v)],
         p := s.p.(pc := if s.p.sent + 1 < cfg.messages then PLoadTail else PDone,
                   sent := s.p.sent + 1, view := v))
    case LoadHeadRelaxed(k) =>
      s.(c := s.c.(pc := CLoadTail, head := s.heads[k].value, view := s.c.view.(head := k)))
    case LoadTailAcquire(k) =>
      var empty := s.c.head == s.tails[k].value;
      s.(c := s.c.(pc := if empty then CLoadHead else CRead,
                   view := Join(s.c.view.(tail := k), s.tails[k].view)))
    case ReadSlot(garbage) =>
      var j := SlotIndex(cfg, s.c.head);
      var clock := s.c.view.fetches + 1;
      var racy := s.slots[j].writeStamp > s.c.view.writes;
      s.(slots := s.slots[j := s.slots[j].(readStamp := clock)],
         race := s.race || racy,
         c := s.c.(pc := CPublish, value := if racy then garbage else s.slots[j].value,
                   view := s.c.view.(fetches := clock)))
    case PublishHead =>
      var v := s.c.view.(head := |s.heads|);
      s.(heads := s.heads + [Store(Wrap(s.c.head + 1), v)],
         c := s.c.(pc := if |s.c.popped| + 1 < cfg.messages then CLoadHead else CDone,
                   popped := s.c.popped + [s.c.value],
                   checksum := Wrap(s.c.checksum + s.c.value), view := v))
  }

  /** `states` is a run: it starts in the initial state and follows `actions`. */
  ghost predicate IsRun(cfg: Config, states: seq<State>, actions: seq<Action>) {
    && |states| == |actions| + 1
    && states[0] == Init(cfg)
    && forall i :: 0 <= i < |actions| ==>
         Enabled(cfg, states[i], actions[i]) && states[i + 1] == Apply(cfg, states[i], actions[i])
  }
}
