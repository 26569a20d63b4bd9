/** The inductive invariant of the ring protocol. */
module RingSafety {
  import opened Word64
  import opened RingProtocol

  /** Completed pushes and pops, as unbounded numbers. */
  function Pushes(s: State): int { |s.tails| - 1 }
  function Pops(s: State): int { |s.heads| - 1 }

  function TotalTo(n: nat): nat { if n == 0 then 0 else TotalTo(n - 1) + n }

  /** A view knows of existing stores only, and of every access those stores were released after. */
  ghost predicate ViewOk(heads: nat, tails: nat, writes: nat, fetches: nat, v: View) {
    && v.head < heads && v.tail < tails
    && v.head <= v.fetches <= fetches
    && v.tail <= v.writes <= writes
  }

  /** The `k`-th store of an index has the unbounded value `k`, wrapped. */
  ghost predicate StoresOk(heads: seq<Store>, tails: seq<Store>, writes: nat, fetches: nat) {
    && |heads| > 0 && |tails| > 0
    && (forall k | 0 <= k < |heads| :: heads[k].value == Wrap(k) && heads[k].view.head == k)
    && (forall k | 0 <= k < |tails| :: tails[k].value == Wrap(k) && tails[k].view.tail == k)
    && (forall k | 0 <= k < |heads| :: ViewOk(|heads|, |tails|, writes, fetches, heads[k].view))
    && (forall k | 0 <= k < |tails| :: ViewOk(|heads|, |tails|, writes, fetches, tails[k].view))
  }

  ghost predicate ProducerOk(cfg: Config, p: Producer, heads: nat, tails: nat, fetches: nat)
    requires tails > 0
  {
    var t := tails - 1;
    && ViewOk(heads, tails, p.view.writes, fetches, p.view)
    && p.sent == t == p.view.tail
    && p.view.writes == (if p.pc == PPublish then t + 1 else t)
    && t <= p.view.head + cfg.capacity
    && (p.pc == PLoadHead || p.pc == PWrite || p.pc == PPublish ==> p.tail == Wrap(t))
    && (p.pc == PWrite || p.pc == PPublish ==> t < p.view.head + cfg.capacity)
    && (if p.pc == PDone then t == cfg.messages else t < cfg.messages)
  }

  ghost predicate ConsumerOk(cfg: Config, c: Consumer, heads: nat, tails: nat, writes: nat)
    requires heads > 0
  {
    var h := heads - 1;
    && ViewOk(heads, tails, writes, c.view.fetches, c.view)
    && |c.popped| == h == c.view.head
    && c.view.fetches == (if c.pc == CPublish then h + 1 else h)
    && h <= c.view.tail
    && (c.pc == CLoadTail || c.pc == CRead || c.pc == CPublish ==> c.head == Wrap(h))
    && (c.pc == CRead || c.pc == CPublish ==> h < c.view.tail)
    && (c.pc == CPublish ==> c.value == Item(h))
    && (if c.pc == CDone then h == cfg.messages else h < cfg.messages)
  }

  /** Element `n` is in its slot, stamped with its own write. */
  predicate Holds(slots: seq<Slot>, n: nat)
    requires slots != []
  {
    var slot := slots[Residue(n, |slots|)];
    slot.value == Item(n) && slot.writeStamp == n + 1
  }

  /** The last read of slot `j`, if any, was of an element of that slot. */
  predicate ReadHere(slots: seq<Slot>, j: nat, fetches: nat)
    requires j < |slots|
  {
    var stamp := slots[j].readStamp;
    stamp > 0 ==> stamp <= fetches && Residue(stamp - 1, |slots|) == j
  }

  /** The last `capacity` writes are in place; a slot's last read was of an element of that slot. */
  ghost predicate SlotsOk(capacity: nat, slots: seq<Slot>, writes: nat, fetches: nat) {
    && |slots| == capacity > 0
    && (forall n :: 0 <= n < writes <= n + capacity ==> Holds(slots, n))
    && (forall j :: 0 <= j < capacity ==> ReadHere(slots, j, fetches))
  }

  ghost predicate OutputOk(popped: seq<word>, checksum: word) {
    && (forall i :: 0 <= i < |popped| ==> popped[i] == Item(i))
    && checksum == Wrap(TotalTo(|popped|))
  }

  ghost predicate Inv(cfg: Config, s: State) {
    && StoresOk(s.heads, s.tails, s.p.view.writes, s.c.view.fetches)
    && ProducerOk(cfg, s.p, |s.heads|, |s.tails|, s.c.view.fetches)
    && ConsumerOk(cfg, s.c, |s.heads|, |s.tails|, s.p.view.writes)
    && SlotsOk(cfg.capacity, s.slots, s.p.view.writes, s.c.view.fetches)
    && OutputOk(s.c.popped, s.c.checksum)
    && !s.race
  }

  lemma InitInv(cfg: Config)
    requires ValidConfig(cfg)
    ensures Inv(cfg, Init(cfg))
  {
  }

  lemma LoadTailRelaxedKeeps(cfg: Config, s: State, k: nat)
    requires ValidConfig(cfg) && Inv(cfg, s) && Enabled(cfg, s, LoadTailRelaxed(k))
    ensures Inv(cfg, Apply(cfg, s, LoadTailRelaxed(k)))
  {
  }

  /** The subtle one: a stale head never lags the own tail by more than the capacity. */
  lemma LoadHeadAcquireKeeps(cfg: Config, s: State, k: nat)
    requires ValidConfig(cfg) && Inv(cfg, s) && Enabled(cfg, s, LoadHeadAcquire(k))
    ensures Inv(cfg, Apply(cfg, s, LoadHeadAcquire(k)))
    ensures Sub(s.p.tail, s.heads[k].value) == Pushes(s) - k
  {
    SubWrapped(Pushes(s), k);
  }

  lemma CountFullHitKeeps(cfg: Config, s: State)
    requires ValidConfig(cfg) && Inv(cfg, s) && Enabled(cfg, s, CountFullHit)
    ensures Inv(cfg, Apply(cfg, s, CountFullHit))
  {
  }

  lemma HoldsAfterWrite(slots: seq<Slot>, writes: nat, n: nat)
    requires slots != [] && n <= writes < n + |slots| && (n < writes ==> Holds(slots, n))
    ensures var j := Residue(writes, |slots|);
      Holds(slots[j := slots[j].(value := Item(writes), writeStamp := writes + 1)], n)
  {
    ResidueInjective(n, writes, |slots|);
  }

  lemma SlotsAfterWrite(capacity: nat, slots: seq<Slot>, writes: nat, fetches: nat, j: nat)
    requires SlotsOk(capacity, slots, writes, fetches) && j == Residue(writes, capacity)
    ensures SlotsOk(capacity, slots[j := slots[j].(value := Item(writes), writeStamp := writes + 1)], writes + 1, fetches)
  {
    var slots' := slots[j := slots[j].(value := Item(writes), writeStamp := writes + 1)];
    forall n: nat | n < writes + 1 <= n + capacity ensures Holds(slots', n) {
      HoldsAfterWrite(slots, writes, n);
    }
    forall i | 0 <= i < capacity ensures ReadHere(slots', i, fetches) {
      assert ReadHere(slots, i, fetches) && slots'[i].readStamp == slots[i].readStamp;
    }
  }

  lemma SlotsAfterRead(capacity: nat, slots: seq<Slot>, writes: nat, fetches: nat, j: nat)
    requires SlotsOk(capacity, slots, writes, fetches) && j == Residue(fetches, capacity)
    ensures SlotsOk(capacity, slots[j := slots[j].(readStamp := fetches + 1)], writes, fetches + 1)
  {
    var slots' := slots[j := slots[j].(readStamp := fetches + 1)];
    var fetches' := fetches + 1;
    forall i | 0 <= i < capacity ensures ReadHere(slots', i, fetches') {
      assert ReadHere(slots, i, fetches);
    }
    forall n: nat | n < writes <= n + capacity ensures Holds(slots', n) {
      assert Holds(slots, n);
    }
  }

  // ---------- What one thread's step leaves of the other's conjuncts ----------

  lemma StoresStay(heads: seq<Store>, tails: seq<Store>, writes: nat, fetches: nat, writes': nat, fetches': nat)
    requires StoresOk(heads, tails, writes, fetches) && writes <= writes' && fetches <= fetches'
    ensures StoresOk(heads, tails, writes', fetches')
  {
  }

  /** A new store of head, or another read of a slot, takes nothing away from the producer. */
  lemma ProducerStays(cfg: Config, p: Producer, heads: nat, tails: nat, fetches: nat, heads': nat, fetches': nat)
    requires tails > 0 && ProducerOk(cfg, p, heads, tails, fetches) && heads <= heads' && fetches <= fetches'
    ensures ProducerOk(cfg, p, heads', tails, fetches')
  {
  }

  /** Nor does a new store of tail, or another write of a slot, from the consumer. */
  lemma ConsumerStays(cfg: Config, c: Consumer, heads: nat, tails: nat, writes: nat, tails': nat, writes': nat)
    requires heads > 0 && ConsumerOk(cfg, c, heads, tails, writes) && tails <= tails' && writes <= writes'
    ensures ConsumerOk(cfg, c, heads, tails', writes')
  {
  }

  lemma ProducerAfterWrite(cfg: Config, p: Producer, heads: nat, tails: nat, fetches: nat)
    requires tails > 0 && ProducerOk(cfg, p, heads, tails, fetches) && p.pc == PWrite
    ensures ProducerOk(cfg, p.(pc := PPublish, view := p.view.(writes := tails)), heads, tails, fetches)
  {
  }

  /** The write goes to the slot of the unbounded index and does not race. */
  lemma WriteSlotEffect(cfg: Config, s: State)
    requires ValidConfig(cfg) && Inv(cfg, s) && Enabled(cfg, s, WriteSlot)
    ensures var t := Pushes(s); var j := Residue(t, cfg.capacity);
      Apply(cfg, s, WriteSlot)
        == s.(slots := s.slots[j := s.slots[j].(value := Item(t), writeStamp := t + 1)],
              p := s.p.(pc := PPublish, view := s.p.view.(writes := t + 1)))
  {
    MaskIsSlot(Pushes(s), cfg.capacity);
    WriterAfterReader(cfg, s);
  }

  lemma WriteSlotKeeps(cfg: Config, s: State)
    requires ValidConfig(cfg) && Inv(cfg, s) && Enabled(cfg, s, WriteSlot)
    ensures Inv(cfg, Apply(cfg, s, WriteSlot))
  {
    var t, fetches := Pushes(s), s.c.view.fetches;
    WriteSlotEffect(cfg, s);
    StoresStay(s.heads, s.tails, t, fetches, t + 1, fetches);
    ProducerAfterWrite(cfg, s.p, |s.heads|, |s.tails|, fetches);
    ConsumerStays(cfg, s.c, |s.heads|, |s.tails|, t, |s.tails|, t + 1);
    SlotsAfterWrite(cfg.capacity, s.slots, t, fetches, Residue(t, cfg.capacity));
  }

  /** The slot about to be reused was last read in an earlier lap, and the writer is ordered after that. */
  lemma WriterAfterReader(cfg: Config, s: State)
    requires ValidConfig(cfg) && Inv(cfg, s) && s.p.pc == PWrite
    ensures s.slots[Residue(Pushes(s), cfg.capacity)].readStamp <= s.p.view.fetches
  {
    var t, c := Pushes(s), cfg.capacity;
    var stamp := s.slots[Residue(t, c)].readStamp;
    assert ReadHere(s.slots, Residue(t, c), s.c.view.fetches);
    if stamp > 0 {
      var n := stamp - 1;
      assert n < t;
      if t < n + c { ResidueInjective(n, t, c); }
    }
  }

  lemma TailsAppend(heads: seq<Store>, tails: seq<Store>, writes: nat, fetches: nat, v: View)
    requires StoresOk(heads, tails, writes, fetches)
    requires v.tail == |tails| && ViewOk(|heads|, |tails| + 1, writes, fetches, v)
    ensures StoresOk(heads, tails + [Store(Wrap(|tails|), v)], writes, fetches)
  {
  }

  lemma ProducerAfterPublish(cfg: Config, p: Producer, heads: nat, tails: nat, fetches: nat)
    requires tails > 0 && ProducerOk(cfg, p, heads, tails, fetches) && p.pc == PPublish
    ensures ProducerOk(cfg, p.(pc := if p.sent + 1 < cfg.messages then PLoadTail else PDone, sent := p.sent + 1,
                               view := p.view.(tail := tails)), heads, tails + 1, fetches)
  {
  }

  lemma PublishTailKeeps(cfg: Config, s: State)
    requires ValidConfig(cfg) && Inv(cfg, s) && Enabled(cfg, s, PublishTail)
    ensures Inv(cfg, Apply(cfg, s, PublishTail))
  {
    var s' := Apply(cfg, s, PublishTail);
    var heads, tails, writes, fetches := |s.heads|, |s.tails|, s.p.view.writes, s.c.view.fetches;
    assert Wrap(s.p.tail + 1) == Wrap(tails) by { ResidueAdd(Pushes(s), 1, TWO64); }
    assert StoresOk(s'.heads, s'.tails, writes, fetches) by {
      TailsAppend(s.heads, s.tails, writes, fetches, s.p.view.(tail := tails));
    }
    assert ProducerOk(cfg, s'.p, heads, tails + 1, fetches) by {
      ProducerAfterPublish(cfg, s.p, heads, tails, fetches);
    }
    assert ConsumerOk(cfg, s.c, heads, tails + 1, writes) by {
      ConsumerStays(cfg, s.c, heads, tails, writes, tails + 1, writes);
    }
  }

  lemma LoadHeadRelaxedKeeps(cfg: Config, s: State, k: nat)
    requires ValidConfig(cfg) && Inv(cfg, s) && Enabled(cfg, s, LoadHeadRelaxed(k))
    ensures Inv(cfg, Apply(cfg, s, LoadHeadRelaxed(k)))
  {
  }

  lemma LoadTailAcquireKeeps(cfg: Config, s: State, k: nat)
    requires ValidConfig(cfg) && Inv(cfg, s) && Enabled(cfg, s, LoadTailAcquire(k))
    ensures Inv(cfg, Apply(cfg, s, LoadTailAcquire(k)))
    ensures s.c.head == s.tails[k].value <==> Pops(s) == k
  {
    ResidueInjective(Pops(s), k, TWO64);
  }

  lemma ReaderAfterWriter(cfg: Config, s: State)
    requires ValidConfig(cfg) && Inv(cfg, s) && s.c.pc == CRead
    ensures var slot := s.slots[Residue(Pops(s), cfg.capacity)];
      slot.value == Item(Pops(s)) && slot.writeStamp == Pops(s) + 1 <= s.c.view.writes
  {
    assert Holds(s.slots, Pops(s));
  }

  lemma ConsumerAfterRead(cfg: Config, c: Consumer, heads: nat, tails: nat, writes: nat)
    requires heads > 0 && ConsumerOk(cfg, c, heads, tails, writes) && c.pc == CRead
    ensures ConsumerOk(cfg, c.(pc := CPublish, value := Item(heads - 1), view := c.view.(fetches := heads)),
                       heads, tails, writes)
  {
  }

  /** The read is of the slot of the unbounded index, sees its element and does not race. */
  lemma ReadSlotEffect(cfg: Config, s: State, garbage: word)
    requires ValidConfig(cfg) && Inv(cfg, s) && Enabled(cfg, s, ReadSlot(garbage))
    ensures var h := Pops(s); var j := Residue(h, cfg.capacity);
      Apply(cfg, s, ReadSlot(garbage))
        == s.(slots := s.slots[j := s.slots[j].(readStamp := h + 1)],
              c := s.c.(pc := CPublish, value := Item(h), view := s.c.view.(fetches := h + 1)))
  {
    MaskIsSlot(Pops(s), cfg.capacity);
    ReaderAfterWriter(cfg, s);
  }

  lemma ReadSlotKeeps(cfg: Config, s: State, garbage: word)
    requires ValidConfig(cfg) && Inv(cfg, s) && Enabled(cfg, s, ReadSlot(garbage))
    ensures Inv(cfg, Apply(cfg, s, ReadSlot(garbage)))
  {
    var h, writes := Pops(s), s.p.view.writes;
    ReadSlotEffect(cfg, s, garbage);
    StoresStay(s.heads, s.tails, writes, h, writes, h + 1);
    ProducerStays(cfg, s.p, |s.heads|, |s.tails|, h, |s.heads|, h + 1);
    ConsumerAfterRead(cfg, s.c, |s.heads|, |s.tails|, writes);
    SlotsAfterRead(cfg.capacity, s.slots, writes, h, Residue(h, cfg.capacity));
  }

  lemma OutputAppend(popped: seq<word>, checksum: word)
    requires OutputOk(popped, checksum)
    ensures var v := Item(|popped|); OutputOk(popped + [v], Wrap(checksum + v))
  {
    TotalStep(|popped|);
  }

  lemma HeadsAppend(heads: seq<Store>, tails: seq<Store>, writes: nat, fetches: nat, v: View)
    requires StoresOk(heads, tails, writes, fetches)
    requires v.head == |heads| && ViewOk(|heads| + 1, |tails|, writes, fetches, v)
    ensures StoresOk(heads + [Store(Wrap(|heads|), v)], tails, writes, fetches)
  {
  }

  lemma ConsumerAfterPublish(cfg: Config, c: Consumer, heads: nat, tails: nat, writes: nat)
    requires heads > 0 && ConsumerOk(cfg, c, heads, tails, writes) && c.pc == CPublish
    ensures ConsumerOk(cfg, c.(pc := if |c.popped| + 1 < cfg.messages then CLoadHead else CDone,
                               popped := c.popped + [c.value], checksum := Wrap(c.checksum + c.value),
                               view := c.view.(head := heads)), heads + 1, tails, writes)
  {
  }

  lemma PublishHeadKeeps(cfg: Config, s: State)
    requires ValidConfig(cfg) && Inv(cfg, s) && Enabled(cfg, s, PublishHead)
    ensures Inv(cfg, Apply(cfg, s, PublishHead))
  {
    var s' := Apply(cfg, s, PublishHead);
    assert Wrap(s.c.head + 1) == Wrap(|s.heads|) by { ResidueAdd(Pops(s), 1, TWO64); }
    assert StoresOk(s'.heads, s'.tails, s'.p.view.writes, s'.c.view.fetches) by {
      HeadsAppend(s.heads, s.tails, s.p.view.writes, s.c.view.fetches, s.c.view.(head := |s.heads|));
    }
    assert ConsumerOk(cfg, s'.c, |s'.heads|, |s'.tails|, s'.p.view.writes) by {
      ConsumerAfterPublish(cfg, s.c, |s.heads|, |s.tails|, s.p.view.writes);
    }
    assert OutputOk(s'.c.popped, s'.c.checksum) by { OutputAppend(s.c.popped, s.c.checksum); }
    var fetches := s.c.view.fetches;
    ProducerStays(cfg, s.p, |s.heads|, |s.tails|, fetches, |s.heads| + 1, fetches);
  }

  lemma TotalStep(h: nat)
    ensures Wrap(Wrap(TotalTo(h)) + Item(h)) == Wrap(TotalTo(h + 1))
  {
    ResidueAdd(TotalTo(h), Item(h), TWO64);
    ResidueAdd(h + 1, TotalTo(h), TWO64);
  }

  lemma StepKeeps(cfg: Config, s: State, a: Action)
    requires ValidConfig(cfg) && Inv(cfg, s) && Enabled(cfg, s, a)
    ensures Inv(cfg, Apply(cfg, s, a))
  {
    match a
    case LoadTailRelaxed(k) => LoadTailRelaxedKeeps(cfg, s, k);
    case LoadHeadAcquire(k) => LoadHeadAcquireKeeps(cfg, s, k);
    case CountFullHit => CountFullHitKeeps(cfg, s);
    case WriteSlot => WriteSlotKeeps(cfg, s);
    case PublishTail => PublishTailKeeps(cfg, s);
    case LoadHeadRelaxed(k) => LoadHeadRelaxedKeeps(cfg, s, k);
    case LoadTailAcquire(k) => LoadTailAcquireKeeps(cfg, s, k);
    case ReadSlot(g) => ReadSlotKeeps(cfg, s, g);
    case PublishHead => PublishHeadKeeps(cfg, s);
  }

  lemma {:induction false} RunInv(cfg: Config, states: seq<State>, actions: seq<Action>, i: nat)
    requires ValidConfig(cfg) && IsRun(cfg, states, actions) && i < |states|
    ensures Inv(cfg, states[i])
  {
    if i == 0 {
      InitInv(cfg);
    } else {
      RunInv(cfg, states, actions, i - 1);
      StepKeeps(cfg, states[i - 1], actions[i - 1]);
    }
  }
}
