/** One slot_meta word: state in bits 0-2, refcount in bits 3-31, generation in
    bits 32-63, and the updates of the word by its methods. */
module SlotWord {
  import opened Basics
  import opened PoolState

  const REF_LIMIT: nat := 0x2000_0000
  const GEN_LIMIT: nat := 0x1_0000_0000
  const WORD_LIMIT: nat := 0x1_0000_0000_0000_0000

  // ---- packing --------------------------------------------------------------------

  /** Bitwise or. */
  function Or(a: nat, b: nat): nat {
    if a == 0 then b
    else if b == 0 then a
    else 2 * Or(a / 2, b / 2) + if a % 2 == 1 || b % 2 == 1 then 1 else 0
  }

  function Pow2(k: nat): nat {
    if k == 0 then 1 else 2 * Pow2(k - 1)
  }

  function StateBits(w: nat): nat {
    w % 8
  }

  function RefBits(w: nat): nat {
    w / 8 % REF_LIMIT
  }

  function GenBits(w: nat): nat {
    w / GEN_LIMIT % GEN_LIMIT
  }

  /** slot_word: the three 32-bit fields shifted into place and or-ed together. */
  function Word(state: nat, ref: nat, gen: nat): nat {
    Or(gen * GEN_LIMIT, Or(ref * 8, state % 8))
  }

  lemma {:induction false} OrDistributes(a: nat, b: nat, x: nat, y: nat, k: nat)
    requires x < Pow2(k) && y < Pow2(k)
    ensures Or(a * Pow2(k) + x, b * Pow2(k) + y) == Or(a, b) * Pow2(k) + Or(x, y)
    ensures Or(x, y) < Pow2(k)
  {
    hide Or;
    if k == 0 {
      OrZero(0);
      assert a * Pow2(k) + x == a && b * Pow2(k) + y == b && x == y == 0;
    } else {
      var p, q := Pow2(k - 1), Pow2(k);
      OrDistributes(a, b, x / 2, y / 2, k - 1);
      assert q == 2 * p;
      hide Pow2;
      OrStep(a * p, b * p, x, y, Or(a, b) * p);
      Twice(a, p, q);
      Twice(b, p, q);
      Twice(Or(a, b), p, q);
      OrHalf(x, y);
    }
  }

  lemma OrStep(u: nat, v: nat, x: nat, y: nat, m: nat)
    requires Or(u + x / 2, v + y / 2) == m + Or(x / 2, y / 2)
    ensures Or(2 * u + x, 2 * v + y) == 2 * m + Or(x, y)
  {
    hide Or;
    OrHalf(2 * u + x, 2 * v + y);
    OrHalf(x, y);
  }

  lemma Twice(a: nat, p: nat, q: nat)
    requires q == 2 * p
    ensures a * q == 2 * (a * p)
  {
  }

  lemma Pow2Values()
    ensures Pow2(3) == 8 && Pow2(32) == GEN_LIMIT
  {
    assert Pow2(8) == 0x100;
    assert Pow2(16) == 0x1_0000;
    assert Pow2(24) == 0x100_0000;
    assert Pow2(32) == 0x1_0000_0000;
  }

  /** One bit of an or. */
  lemma {:induction false} OrHalf(a: nat, b: nat)
    ensures Or(a, b) == 2 * Or(a / 2, b / 2) + if a % 2 == 1 || b % 2 == 1 then 1 else 0
  {
    if a == 0 {
      assert Or(a / 2, b / 2) == b / 2;
    } else if b == 0 {
      OrZero(a / 2);
    }
  }

  lemma {:induction false} OrZero(a: nat)
    ensures Or(a, 0) == a && Or(0, a) == a
  {
  }

  /** A packed word by its two halves: a refcount of 2^29 or more spills into the generation. */
  lemma WordHalves(state: nat, ref: nat, gen: nat)
    requires ref < GEN_LIMIT && gen < GEN_LIMIT
    ensures Word(state, ref, gen) == Or(gen, ref / REF_LIMIT) * GEN_LIMIT + ref % REF_LIMIT * 8 + state % 8
    ensures Or(gen, ref / REF_LIMIT) < GEN_LIMIT
  {
    hide Or, Pow2;
    Pow2Values();
    OrDistributes(ref, 0, 0, state % 8, 3);
    OrZero(ref);
    OrZero(state % 8);
    var low := ref % REF_LIMIT * 8 + state % 8;
    assert Or(ref * 8, state % 8) == ref / REF_LIMIT * GEN_LIMIT + low;
    OrDistributes(gen, ref / REF_LIMIT, 0, low, 32);
    OrZero(low);
    OrDistributes(0, 0, gen, ref / REF_LIMIT, 32);
  }

  lemma WordFields(state: nat, ref: nat, gen: nat)
    requires ref < GEN_LIMIT && gen < GEN_LIMIT
    ensures var w := Word(state, ref, gen);
            StateBits(w) == state % 8 && RefBits(w) == ref % REF_LIMIT && GenBits(w) == Or(gen, ref / REF_LIMIT) &&
                w < WORD_LIMIT
  {
    hide Word, Or;
    WordHalves(state, ref, gen);
    HalvesFields(Or(gen, ref / REF_LIMIT), ref % REF_LIMIT, state % 8);
  }

  lemma HalvesFields(high: nat, ref: nat, state: nat)
    requires high < GEN_LIMIT && ref < REF_LIMIT && state < 8
    ensures var w := high * GEN_LIMIT + ref * 8 + state;
            StateBits(w) == state && RefBits(w) == ref && GenBits(w) == high && w < WORD_LIMIT
  {
  }

  /** Packing and unpacking are inverse exactly when the state has three bits and
      the refcount twenty-nine. */
  lemma WordRoundTrip(state: nat, ref: nat, gen: nat)
    requires ref < GEN_LIMIT && gen < GEN_LIMIT
    ensures var w := Word(state, ref, gen);
            (StateBits(w) == state && RefBits(w) == ref && GenBits(w) == gen) <==> (state < 8 && ref < REF_LIMIT)
  {
    WordFields(state, ref, gen);
    OrZero(gen);
  }

  /** Every 64-bit word is the packing of its fields. */
  lemma WordIsItsFields(w: nat)
    requires w < WORD_LIMIT
    ensures Word(StateBits(w), RefBits(w), GenBits(w)) == w
  {
    hide Word, Or;
    WordHalves(StateBits(w), RefBits(w), GenBits(w));
    OrZero(GenBits(w));
    assert RefBits(w) / REF_LIMIT == 0;
    assert w == w / GEN_LIMIT * GEN_LIMIT + w / 8 % REF_LIMIT * 8 + w % 8;
  }

  // ---- the slot_meta object -----------------------------------------------------------

  function Code(st: SlotState): nat {
    match st
    case Empty => 0
    case IoInflight => 1
    case Ready => 2
    case Evicting => 3
    case Failed => 4
  }

  function Decode(code: nat): SlotState {
    if code == 0 then Empty else if code == 1 then IoInflight else if code == 2 then Ready
    else if code == 3 then Evicting else Failed
  }

  /** The slot a word stands for. */
  function Unpacked(w: nat): Slot {
    Slot(Decode(StateBits(w)), RefBits(w), GenBits(w))
  }

  /** The 32-bit generation wraps. */
  function Wrapped(x: Slot): Slot {
    x.(gen := x.gen % GEN_LIMIT)
  }

  lemma PackedSlot(x: Slot)
    requires x.ref < REF_LIMIT && x.gen < GEN_LIMIT
    ensures var w := Word(Code(x.st), x.ref, x.gen); Unpacked(w) == x && StateBits(w) == Code(x.st) && w < WORD_LIMIT
  {
    WordFields(Code(x.st), x.ref, x.gen);
    OrZero(x.gen);
  }

  /** Each method is one successful iteration of its compare-and-swap loop. */
  class SlotMeta {
    var word: nat

    ghost predicate Valid()
      reads this
    {
      word < WORD_LIMIT && StateBits(word) <= 4
    }

    ghost function View(): Slot
      reads this
    {
      Unpacked(word)
    }

    constructor ()
      ensures Valid() && View() == Slot(Empty, 0, 0)
    {
      word := Word(0, 0, 0);
      PackedSlot(Slot(Empty, 0, 0));
    }

    /** The generation pinned, or -1. */
    method TryPin() returns (gen: int)
      requires Valid()
      modifies this
      ensures Valid()
      ensures if old(View()).Pinnable()
              then gen == old(View()).gen && View() == old(View()).(ref := old(View()).ref + 1)
              else gen == -1 && View() == old(View())
    {
      if StateBits(word) != 2 || RefBits(word) >= REF_LIMIT - 1 { return -1; }
      gen := GenBits(word);
      PackedSlot(Slot(Ready, RefBits(word) + 1, GenBits(word)));
      word := Word(2, RefBits(word) + 1, GenBits(word));
    }

    method Unpin()
      requires Valid()
      modifies this
      ensures Valid() && View() == old(View()).Unpin()
    {
      if RefBits(word) == 0 { return; }
      PackedSlot(Slot(Decode(StateBits(word)), RefBits(word) - 1, GenBits(word)));
      word := Word(StateBits(word), RefBits(word) - 1, GenBits(word));
    }

    method MarkReady()
      requires Valid()
      modifies this
      ensures Valid() && View() == old(View()).MarkReady()
    {
      if StateBits(word) != 1 { return; }
      PackedSlot(Slot(Ready, RefBits(word), GenBits(word)));
      word := Word(2, RefBits(word), GenBits(word));
    }

    method BeginEvict() returns (won: bool)
      requires Valid()
      modifies this
      ensures Valid() && won == (old(View()).st == Ready)
      ensures View() == if won then old(View()).(st := Evicting) else old(View())
    {
      if StateBits(word) != 2 { return false; }
      PackedSlot(Slot(Evicting, RefBits(word), GenBits(word)));
      word := Word(3, RefBits(word), GenBits(word));
      won := true;
    }

    /** The new generation; the 32-bit increment wraps. */
    method BeginReload() returns (gen: nat)
      requires Valid()
      modifies this
      ensures Valid() && View() == Wrapped(old(View()).BeginReload()) && gen == View().gen
    {
      gen := (GenBits(word) + 1) % GEN_LIMIT;
      PackedSlot(Slot(IoInflight, 0, gen));
      word := Word(1, 0, gen);
    }

    method ReleaseToEmpty()
      requires Valid()
      modifies this
      ensures Valid() && View() == Wrapped(old(View()).ReleaseToEmpty())
    {
      var gen := (GenBits(word) + 1) % GEN_LIMIT;
      PackedSlot(Slot(Empty, 0, gen));
      word := Word(0, 0, gen);
    }

    method MarkFailed()
      requires Valid()
      modifies this
      ensures Valid() && View() == old(View()).(st := Failed)
    {
      PackedSlot(Slot(Failed, RefBits(word), GenBits(word)));
      word := Word(4, RefBits(word), GenBits(word));
    }
  }
}
