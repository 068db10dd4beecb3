/** Bits of a 32-bit control register. A register value is the set of the
    positions of its one bits, so C's `|` is union, `& ~MASK` is difference and
    `&` is intersection. Numbers enter and leave a register through `FromNat`
    (C's conversion to `uint32_t`, keeping the low 32 bits) and `Value`. */
module Bits {

  const WordSize: nat := 32

  /** A register value: the positions of its one bits. Every value the
      driver builds comes from `FromNat`, `Shl` and `Mask`, whose positions
      are all below `WordSize`. */
  type Word = set<nat>

  function Pow2(n: nat): (r: nat)
    ensures r >= 1
  {
    if n == 0 then 1 else 2 * Pow2(n - 1)
  }

  /** A wider field holds at least as much. */
  lemma {:induction false} Pow2Grows(a: nat, b: nat)
    requires a <= b
    ensures Pow2(a) <= Pow2(b)
  {
    if a < b {
      Pow2Grows(a, b - 1);
    }
  }

  /** Bit `j` of `n`. */
  function Bit(n: nat, j: nat): bool
  {
    if j == 0 then n % 2 == 1 else Bit(n / 2, j - 1)
  }

  /** `n` as a 32-bit unsigned value. */
  function FromNat(n: nat): Word
  {
    set i | 0 <= i < WordSize && Bit(n, i)
  }

  /** The unsigned number held by the `w` bits of `v` starting at bit `lo`. */
  function Value(v: Word, lo: nat, w: nat): nat
    decreases w
  {
    if w == 0 then 0 else (if lo in v then 1 else 0) + 2 * Value(v, lo + 1, w - 1)
  }

  /** C's `x << s` on a 32-bit unsigned value: every bit moves up `s` places
      and bits moved past bit 31 are lost. */
  function Shl(x: Word, s: nat): Word
  {
    set i | i in x && i + s < WordSize :: i + s
  }

  /** The shift moves no bit past bit 31. */
  predicate ShiftKeeps(x: Word, s: nat) {
    forall i :: i in x ==> i + s < WordSize
  }

  /** A field of `width` contiguous bits whose lowest bit is `shift`: the pair
      of a header's `_SHIFT` constant and its contiguous mask. */
  datatype Field = Field(shift: nat, width: nat)

  predicate ValidField(f: Field) {
    1 <= f.width && f.shift + f.width <= WordSize
  }

  /** The field's mask, contiguous at its shift by construction. */
  function Mask(f: Field): Word
    requires ValidField(f)
  {
    RunMembers(f.shift, f.width);
    Run(f.shift, f.width)
  }

  /** The positions `lo` .. `lo + w - 1`. */
  function Run(lo: nat, w: nat): set<nat>
    decreases w
  {
    if w == 0 then {} else {lo} + Run(lo + 1, w - 1)
  }

  lemma {:induction false} RunMembers(lo: nat, w: nat)
    ensures forall i :: i in Run(lo, w) <==> lo <= i < lo + w
    decreases w
  {
    if w > 0 {
      RunMembers(lo + 1, w - 1);
    }
  }

  /** The mask holds exactly the field's positions. */
  lemma MaskMembers(f: Field)
    requires ValidField(f)
    ensures forall i :: i in Mask(f) <==> f.shift <= i < f.shift + f.width
  {
    RunMembers(f.shift, f.width);
  }

  /** `(v & MASK) >> SHIFT`: the number held in field `f` of `v`. */
  function Get(v: Word, f: Field): nat
    requires ValidField(f)
  {
    Value(v, f.shift, f.width)
  }

  /** `x << SHIFT`: the number `x` moved to the field's position. */
  function Place(x: nat, f: Field): Word
    requires ValidField(f)
  {
    Shl(FromNat(x), f.shift)
  }

  /** The field is wide enough for `x`. */
  predicate Holds(f: Field, x: nat)
    requires ValidField(f)
  {
    x < Pow2(f.width)
  }

  /** `v &= ~MASK; v |= x << SHIFT`: replace field `f` of `v` by `x`. */
  function Put(v: Word, f: Field, x: nat): Word
    requires ValidField(f)
  {
    (v - Mask(f)) + Place(x, f)
  }

  /** A number below `2^w` has no one bit at position `w` or above. */
  lemma {:induction false} NoBitAbove(x: nat, w: nat, j: nat)
    requires x < Pow2(w) && w <= j
    ensures !Bit(x, j)
  {
    if w == 0 {
      assert x == 0;
      ZeroHasNoBits(j);
    } else {
      NoBitAbove(x / 2, w - 1, j - 1);
    }
  }

  lemma {:induction false} ZeroHasNoBits(j: nat)
    ensures !Bit(0, j)
  {
    if j > 0 {
      ZeroHasNoBits(j - 1);
    }
  }

  /** Bit `i` of `x << SHIFT` is bit `i - SHIFT` of `x`. */
  lemma PlaceMember(x: nat, f: Field, i: nat)
    requires ValidField(f) && f.shift <= i < WordSize
    ensures i in Place(x, f) <==> Bit(x, i - f.shift)
  {
    var j := i - f.shift;
    if Bit(x, j) {
      assert j in FromNat(x);
    }
  }

  /** A number the field can hold, shifted into place, stays inside the mask. */
  lemma PlaceInMask(x: nat, f: Field)
    requires ValidField(f) && Holds(f, x)
    ensures Place(x, f) <= Mask(f)
  {
    MaskMembers(f);
    forall i | i in Place(x, f)
      ensures i in Mask(f)
    {
      var j :| j in FromNat(x) && j + f.shift < WordSize && i == j + f.shift;
      if j >= f.width {
        NoBitAbove(x, f.width, j);
      }
    }
  }

  /** The `w` bits of `v` from `lo` on that match the bits of `x` read back as `x`. */
  lemma {:induction false} ValueOfBits(v: Word, lo: nat, w: nat, x: nat)
    requires x < Pow2(w)
    requires forall i :: lo <= i < lo + w ==> (i in v <==> Bit(x, i - lo))
    ensures Value(v, lo, w) == x
    decreases w
  {
    if w > 0 {
      assert lo in v <==> Bit(x, 0);
      forall i | lo + 1 <= i < lo + w
        ensures i in v <==> Bit(x / 2, i - (lo + 1))
      {
        assert i in v <==> Bit(x, i - lo);
      }
      ValueOfBits(v, lo + 1, w - 1, x / 2);
    }
  }

  /** `w` clear bits read as zero. */
  lemma {:induction false} ValueOfNoBits(v: Word, lo: nat, w: nat)
    requires forall i :: lo <= i < lo + w ==> i !in v
    ensures Value(v, lo, w) == 0
    decreases w
  {
    if w > 0 {
      ValueOfNoBits(v, lo + 1, w - 1);
    }
  }

  /** Reading back a field whose bits are exactly `x << SHIFT` yields `x`. */
  lemma GetPlaced(v: Word, f: Field, x: nat)
    requires ValidField(f) && Holds(f, x) && v * Mask(f) == Place(x, f)
    ensures Get(v, f) == x
  {
    MaskMembers(f);
    forall i | f.shift <= i < f.shift + f.width
      ensures i in v <==> Bit(x, i - f.shift)
    {
      assert i in Mask(f);
      assert i in v <==> i in Place(x, f);
      PlaceMember(x, f, i);
    }
    ValueOfBits(v, f.shift, f.width, x);
  }

  /** A field whose bits are all clear reads as zero. */
  lemma GetCleared(v: Word, f: Field)
    requires ValidField(f) && v * Mask(f) == {}
    ensures Get(v, f) == 0
  {
    MaskMembers(f);
    forall i | f.shift <= i < f.shift + f.width
      ensures i !in v
    {
      assert i in Mask(f) && i !in v * Mask(f);
    }
    ValueOfNoBits(v, f.shift, f.width);
  }

  /** Put stores `x` in the field and keeps every bit outside it. */
  lemma PutGet(v: Word, f: Field, x: nat)
    requires ValidField(f) && Holds(f, x)
    ensures Put(v, f, x) * Mask(f) == Place(x, f)
    ensures Put(v, f, x) - Mask(f) == v - Mask(f)
    ensures Get(Put(v, f, x), f) == x
  {
    PlaceInMask(x, f);
    assert Put(v, f, x) * Mask(f) == Place(x, f);
    GetPlaced(Put(v, f, x), f, x);
  }

  /** The two fields share no bit. */
  predicate Apart(f: Field, g: Field) {
    f.shift + f.width <= g.shift || g.shift + g.width <= f.shift
  }

  lemma ApartMasks(f: Field, g: Field)
    requires ValidField(f) && ValidField(g) && Apart(f, g)
    ensures Mask(f) * Mask(g) == {}
  {
    MaskMembers(f);
    MaskMembers(g);
    assert forall i :: i in Mask(f) ==> i !in Mask(g);
  }

  /** Put keeps every bit outside the field. */
  lemma PutOutside(v: Word, f: Field, x: nat, i: nat)
    requires ValidField(f) && Holds(f, x) && i !in Mask(f)
    ensures i in Put(v, f, x) <==> i in v
  {
    PlaceInMask(x, f);
  }

  /** Put on one field leaves the bits of a disjoint field alone. */
  lemma PutOther(v: Word, f: Field, x: nat, g: Field)
    requires ValidField(f) && ValidField(g) && Holds(f, x) && Apart(f, g)
    ensures Put(v, f, x) * Mask(g) == v * Mask(g)
  {
    PlaceInMask(x, f);
    ApartMasks(f, g);
    forall i | i in Mask(g)
      ensures i in Put(v, f, x) <==> i in v
    {
      assert i !in Mask(f) * Mask(g);
    }
  }

  /** A shift by zero moves nothing. */
  lemma ShlZero(n: nat)
    ensures Shl(FromNat(n), 0) == FromNat(n)
  {
    assert forall i :: i in FromNat(n) ==> i in Shl(FromNat(n), 0);
  }

  /** A number a field at bit 0 can hold, ORed in unshifted, stays inside the mask. */
  lemma FromNatInMask(x: nat, f: Field)
    requires ValidField(f) && f.shift == 0 && Holds(f, x)
    ensures FromNat(x) <= Mask(f)
    ensures FromNat(x) == Place(x, f)
  {
    ShlZero(x);
    PlaceInMask(x, f);
  }

  /** `v'` is `v` with every bit of `bits` set and no other bit changed. */
  predicate SetsExactly(v: Word, v': Word, bits: Word) {
    bits <= v' && v' - bits == v - bits
  }

  /** `v'` is `v` with every bit of `bits` cleared and no other bit changed. */
  predicate ClearsExactly(v: Word, v': Word, bits: Word) {
    v' * bits == {} && v' - bits == v - bits
  }

  /** Setting the same bits twice changes nothing the second time. */
  lemma SetTwice(a: Word, b: Word, c: Word, bits: Word)
    requires SetsExactly(a, b, bits) && SetsExactly(b, c, bits)
    ensures c == b
  {
    assert forall i :: i in c <==> i in b by {
      forall i ensures i in c <==> i in b {
        if i !in bits {
          assert i in c - bits <==> i in b - bits;
        }
      }
    }
  }

  /** Clearing bits after setting them leaves them clear and the rest as it was. */
  lemma SetThenClear(a: Word, b: Word, c: Word, bits: Word)
    requires SetsExactly(a, b, bits) && ClearsExactly(b, c, bits)
    ensures ClearsExactly(a, c, bits)
  {}

  /** Clearing bits that were already clear changes nothing. */
  lemma ClearWhenClear(a: Word, c: Word, bits: Word)
    requires ClearsExactly(a, c, bits) && a * bits == {}
    ensures c == a
  {
    assert forall i :: i in c <==> i in a by {
      forall i ensures i in c <==> i in a {
        if i in bits {
          assert i !in a * bits && i !in c * bits;
        } else {
          assert i in c - bits <==> i in a - bits;
        }
      }
    }
  }
}
