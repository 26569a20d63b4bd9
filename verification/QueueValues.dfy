/** Which items of the queue benchmark carry the same value. */
module QueueValues {
  import opened Bits
  import opened QueueProtocol
  import opened Word64

  const TOP: nat := 0x100_0000_0000_0000

  lemma TopIsPower()
    ensures Pow2(56) == TOP
  {
    assert Pow2(8) == 0x100;
    Pow2Add(8, 8);
    Pow2Add(16, 16);
    Pow2Add(32, 16);
    Pow2Add(48, 8);
  }

  lemma {:induction false} ShiftedId(id: nat)
    ensures Wrap(id * TOP) == Residue(id, 256) * TOP
  {
    if id >= 256 {
      assert id * TOP == (id - 256) * TOP + TWO64;
      ShiftedId(id - 256);
    }
  }

  /** A byte met with the top of a number, above the low 56 bits of the number. */
  function Packed(id: nat, n: nat): nat {
    BitXor(id, n / TOP) * TOP + n % TOP
  }

  /**
   * The value of an item: in the top byte its producer's number, modulo 256, exclusive-or the top byte of
   * its own number; below it the low 56 bits of its own number.
   */
  lemma ValueParts(item: Item)
    requires item.index + 1 < TWO64
    ensures Value(item) == Packed(Residue(item.producer, 256), item.index + 1)
  {
    var n := item.index + 1;
    ShiftedId(item.producer);
    TopIsPower();
    var id := Residue(item.producer, 256);
    XorHighLow(id, n / TOP, n % TOP, 56);
    ShiftedIs(id, 56);
    ShiftedIs(n / TOP, 56);
    ShiftedIs(BitXor(id, n / TOP), 56);
  }

  /** All items of a run with `producers` producers of `items` items each. */
  predicate Produced(item: Item, producers: nat, items: nat) {
    item.producer < producers && item.index < items
  }

  ghost predicate ValuesDistinct(producers: nat, items: nat) {
    forall a: Item, b: Item | Produced(a, producers, items) && Produced(b, producers, items) ::
      Value(a) == Value(b) ==> a == b
  }

  lemma SameTopSameRest(a: nat, b: nat, x: nat, y: nat)
    requires a * TOP + x == b * TOP + y && x < TOP && y < TOP
    ensures a == b && x == y
  {
    ModUnique(a * TOP + x, TOP, a, x);
    ModUnique(b * TOP + y, TOP, b, y);
  }

  lemma SameParts(m: nat, n: nat)
    requires m / TOP == n / TOP && m % TOP == n % TOP
    ensures m == n
  {
  }

  /** At most 2^56 leaves only the very last number with a top byte. */
  lemma TopOfNumber(n: nat)
    requires 0 < n <= TOP
    ensures n / TOP == if n % TOP == 0 then 1 else 0
  {
  }

  lemma PartsDetermine(p: nat, q: nat, m: nat, n: nat)
    requires 0 < m <= TOP && 0 < n <= TOP && Packed(p, m) == Packed(q, n)
    ensures p == q && m == n
  {
    SameTopSameRest(BitXor(p, m / TOP), BitXor(q, n / TOP), m % TOP, n % TOP);
    TopOfNumber(m);
    TopOfNumber(n);
    SameParts(m, n);
    XorInjective(p, q, m / TOP);
  }

  lemma SmallValue(item: Item)
    requires item.producer < 256 && item.index < TOP
    ensures Value(item) == Packed(item.producer, item.index + 1)
  {
    ValueParts(item);
  }

  lemma FewEnoughDistinct(a: Item, b: Item)
    requires a.producer < 256 && b.producer < 256 && a.index < TOP && b.index < TOP
    requires Value(a) == Value(b)
    ensures a == b
  {
    SmallValue(a);
    SmallValue(b);
    PartsDetermine(a.producer, b.producer, a.index + 1, b.index + 1);
  }

  lemma OneProducerDistinct(a: Item, b: Item)
    requires a.producer == 0 && b.producer == 0 && a.index + 1 < TWO64 && b.index + 1 < TWO64
    requires Value(a) == Value(b)
    ensures a == b
  {
  }

  lemma ProducersCollide()
    ensures Value(Item(0, 0)) == Value(Item(256, 0))
  {
    ValueParts(Item(0, 0));
    ValueParts(Item(256, 0));
    assert Residue(256, 256) == Residue(0, 256);
  }

  lemma LongStreamsCollide()
    ensures Value(Item(0, TOP)) == Value(Item(1, 0))
  {
    ValueParts(Item(0, TOP));
    ValueParts(Item(1, 0));
  }

  /**
   * The streams are meant to be unique, so that the checksum notices a lost or doubled item. They are so
   * exactly with one producer, with no items, or with at most 256 producers of at most 2^56 items each.
   */
  lemma ValuesDistinctIff(producers: nat, items: nat)
    requires items < TWO64
    ensures ValuesDistinct(producers, items) <==>
      producers <= 1 || items == 0 || (producers <= 256 && items <= TOP)
  {
    if producers <= 1 || items == 0 || (producers <= 256 && items <= TOP) {
      forall a: Item, b: Item |
        Produced(a, producers, items) && Produced(b, producers, items) && Value(a) == Value(b)
        ensures a == b
      {
        if producers <= 1 { OneProducerDistinct(a, b); } else { FewEnoughDistinct(a, b); }
      }
    } else if producers > 256 {
      ProducersCollide();
      assert Produced(Item(0, 0), producers, items) && Produced(Item(256, 0), producers, items);
    } else {
      LongStreamsCollide();
      assert Produced(Item(0, TOP), producers, items) && Produced(Item(1, 0), producers, items);
    }
  }
}
