/**
 The `u64` bitmask a request keeps of the quota slots it has already tried,
 and the proof that it behaves as a set of slots.
 */
module SlotMask {

  /** Hard cap on the number of nodes: one bit of the mask per quota slot. */
  const MAX_NODES: nat := 64

  type Slot = n: nat | n < 64

  function ShiftLeft(x: bv64, n: nat): bv64 {
    if n == 0 then x else ShiftLeft(x, n - 1) << 1
  }

  /** One, shifted left by the slot number. */
  function Bit(s: Slot): bv64 {
    ShiftLeft(1, s)
  }

  predicate Overlap(a: bv64, b: bv64) {
    a & b != 0
  }

  /** The router's test for "this slot was already tried". */
  predicate Has(mask: bv64, s: Slot) {
    Overlap(mask, Bit(s))
  }

  ghost function Members(mask: bv64): set<Slot> {
    set s: Slot | Has(mask, s)
  }

  lemma OrDistributes(m: bv64, a: bv64, b: bv64)
    ensures (m | a) & b == (m & b) | (a & b)
  {}

  lemma OrIsZero(x: bv64, y: bv64)
    ensures x | y == 0 <==> x == 0 && y == 0
  {}

  lemma OverlapOfUnion(m: bv64, a: bv64, b: bv64)
    ensures Overlap(m | a, b) == (Overlap(m, b) || Overlap(a, b))
  {
    OrDistributes(m, a, b);
    OrIsZero(m & b, a & b);
  }

  lemma ShiftKeepsApart(a: bv64, b: bv64)
    ensures Overlap(a << 1, b << 1) ==> Overlap(a, b)
  {}

  lemma ShiftedIsEven(a: bv64)
    ensures !Overlap(a << 1, 1) && !Overlap(1, a << 1)
  {}

  lemma {:induction false} BitsApart(s: Slot, t: Slot)
    requires s != t
    ensures !Overlap(Bit(s), Bit(t))
  {
    if s == 0 {
      ShiftedIsEven(Bit(t - 1));
    } else if t == 0 {
      ShiftedIsEven(Bit(s - 1));
    } else {
      BitsApart(s - 1, t - 1);
      ShiftKeepsApart(Bit(s - 1), Bit(t - 1));
    }
  }

  lemma MiddleBit()
    ensures Bit(32) == 0x1_0000_0000
  {
    assert Bit(2) == 0x4;  assert Bit(4) == 0x10;
    assert Bit(6) == 0x40;  assert Bit(8) == 0x100;
    assert Bit(10) == 0x400;  assert Bit(12) == 0x1000;
    assert Bit(14) == 0x4000;  assert Bit(16) == 0x10000;
    assert Bit(18) == 0x40000;  assert Bit(20) == 0x100000;
    assert Bit(22) == 0x400000;  assert Bit(24) == 0x1000000;
    assert Bit(26) == 0x4000000;  assert Bit(28) == 0x10000000;
    assert Bit(30) == 0x40000000;  assert Bit(32) == 0x100000000;
  }

  /** The highest slot still lands inside the word: nothing is shifted out. */
  lemma TopBit()
    ensures Bit(63) == 0x8000_0000_0000_0000
  {
    MiddleBit();
    assert Bit(34) == 0x400000000;  assert Bit(36) == 0x1000000000;
    assert Bit(38) == 0x4000000000;  assert Bit(40) == 0x10000000000;
    assert Bit(42) == 0x40000000000;  assert Bit(44) == 0x100000000000;
    assert Bit(46) == 0x400000000000;  assert Bit(48) == 0x1000000000000;
    assert Bit(50) == 0x4000000000000;  assert Bit(52) == 0x10000000000000;
    assert Bit(54) == 0x40000000000000;  assert Bit(56) == 0x100000000000000;
    assert Bit(58) == 0x400000000000000;  assert Bit(60) == 0x1000000000000000;
    assert Bit(62) == 0x4000000000000000;
  }

  lemma {:induction false} BitNonzero(s: Slot)
    ensures Bit(s) != 0
    decreases MAX_NODES - s
  {
    if s == 63 {
      TopBit();
    } else {
      BitNonzero(s + 1);
    }
  }

  lemma OverlapSelf(m: bv64, a: bv64)
    requires a != 0
    ensures Overlap(m | a, a)
  {}

  lemma MarkSelf(mask: bv64, s: Slot)
    ensures Has(mask | Bit(s), s)
  {
    BitNonzero(s);
    OverlapSelf(mask, Bit(s));
  }

  lemma MarkOther(mask: bv64, s: Slot, t: Slot)
    requires s != t
    ensures Has(mask | Bit(s), t) == Has(mask, t)
  {
    BitsApart(s, t);
    OverlapOfUnion(mask, Bit(s), Bit(t));
  }

  /** Setting a slot's bit adds exactly that slot to the set of tried slots. */
  lemma MarkRefines(mask: bv64, s: Slot)
    ensures Members(mask | Bit(s)) == Members(mask) + {s}
  {
    forall t: Slot ensures Has(mask | Bit(s), t) <==> s == t || Has(mask, t) {
      if s == t {
        MarkSelf(mask, s);
      } else {
        MarkOther(mask, s, t);
      }
    }
  }

  lemma EmptyMaskRefines()
    ensures Members(0) == {}
  {}

  /** `tried & (1 << id) != 0` */
  method IsTried(mask: bv64, s: Slot) returns (tried: bool)
    ensures tried <==> s in Members(mask)
  {
    tried := Has(mask, s);
  }

  /** `tried |= 1 << id` */
  method MarkTried(mask: bv64, s: Slot) returns (marked: bv64)
    ensures Members(marked) == Members(mask) + {s}
  {
    MarkRefines(mask, s);
    marked := mask | Bit(s);
  }

  // ---------------------------------------------------------------------
  // There are 64 slots
  // ---------------------------------------------------------------------

  ghost function AllSlots(n: nat): (r: set<Slot>)
    requires n <= MAX_NODES
    ensures |r| == n
    ensures forall s: Slot :: s in r <==> s < n
  {
    if n == 0 then {} else AllSlots(n - 1) + {n - 1}
  }

  lemma {:induction false} SubsetIsSmaller<T>(a: set<T>, b: set<T>)
    requires a <= b
    ensures |a| <= |b|
    ensures a != b ==> |a| < |b|
  {
    if a != {} {
      var x :| x in a;
      SubsetIsSmaller(a - {x}, b - {x});
    }
  }

  lemma SlotSetIsSmall(s: set<Slot>)
    ensures |s| <= MAX_NODES
  {
    SubsetIsSmaller(s, AllSlots(MAX_NODES));
  }
}
