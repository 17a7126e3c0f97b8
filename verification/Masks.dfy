/** The 64-bit sub-packet masks of common/large_packet.c: raw words, and the index sets they mean. */
module Masks {

  const ALL_ONES: bv64 := 0xFFFF_FFFF_FFFF_FFFF

  // The positions of a mask word; the type rules out a shift by the word width.
  type Index = i: nat | i < 64

  // The machine operators, named so that proofs can treat them as abstract.
  function And(a: bv64, b: bv64): bv64 { a & b }
  function Or(a: bv64, b: bv64): bv64 { a | b }
  function Xor(a: bv64, b: bv64): bv64 { a ^ b }
  function Not(a: bv64): bv64 { !a }

  function Shift(i: bv8): bv64
    requires i < 64
  {
    (1 as bv64) << i
  }

  function Below(i: bv8): bv64
    requires i < 64
  {
    ((1 as bv64) << i) - 1
  }

  type ShiftAmount = i: bv8 | i < 64

  function Amount(i: Index): ShiftAmount {
    IndexRoundTrip(i);
    i as bv8
  }

  // ((uint64_t) 1) << i
  function Single(i: Index): bv64 {
    Shift(Amount(i))
  }

  // (((uint64_t) 1) << i) - 1
  function Low(i: Index): bv64 {
    Below(Amount(i))
  }

  // The test of pick_next_to_send.
  predicate Bit(m: bv64, i: Index) {
    And(Single(i), m) != 0
  }

  // The indices whose bit is 1: what a mask word means.
  function Bits(m: bv64): set<nat> {
    set i: nat | i < 64 && Bit(m, i)
  }

  function Range(n: nat): (s: set<nat>)
    ensures forall i: nat :: i in s <==> i < n
    ensures |s| == n
  {
    if n == 0 then {} else Range(n - 1) + {n - 1}
  }

  // mask |= 1 << i
  function With(m: bv64, i: Index): bv64 {
    Or(m, Single(i))
  }

  // mask &= ~(1 << i)
  function Without(m: bv64, i: Index): bv64 {
    And(m, Not(Single(i)))
  }

  // The mask with bits 0..n-1 set; 64 is apart because 1 << 64 is not defined.
  function Whole(n: nat): bv64
    requires n <= 64
  {
    if n == 64 then ALL_ONES else Low(n)
  }

  datatype WholeResult = WholeResult(status: int, mask: bv64)

  // large_packet_send_whole_mask_get
  function WholeMaskGet(n: nat): WholeResult {
    if n > 64 then WholeResult(-1, 0) else WholeResult(0, Whole(n))
  }

  // The word computed by request_for_missing_subpackets.
  function Missing(received: bv64, n: nat): bv64 {
    var inverted := Xor(received, ALL_ONES);
    if n < 64 then And(inverted, Low(n)) else inverted
  }

  // -------------------------------------------------------------------------
  // Word-level facts, each small enough for bit-blasting.
  // -------------------------------------------------------------------------

  lemma {:induction false} ByteOf(i: nat) returns (b: bv8)
    requires i < 256
    ensures b as nat == i
  {
    if i == 0 {
      b := 0;
    } else {
      b := ByteOf(i - 1);
      WordSuccessor(b);
      b := b + 1;
    }
  }

  lemma WordSuccessor(i: bv8)
    requires i as nat < 255
    ensures (i + 1) as nat == i as nat + 1
  {
  }

  lemma WordInverse(i: bv8)
    ensures (i as nat) as bv8 == i
  {
  }

  lemma WordOrder(i: bv8, j: bv8)
    ensures i < j <==> i as nat < j as nat
  {
  }

  lemma IndexRoundTrip(i: nat)
    requires i < 256
    ensures (i as bv8) as nat == i
  {
    var b := ByteOf(i);
    WordInverse(b);
  }

  lemma AmountOrder(i: Index, j: Index)
    ensures Amount(i) < Amount(j) <==> i < j
    ensures Amount(i) == Amount(j) <==> i == j
  {
    IndexRoundTrip(i);
    IndexRoundTrip(j);
    WordOrder(i as bv8, j as bv8);
  }

  lemma AmountStep(i: Index)
    ensures if i == 63 then Amount(i) == 63 else Amount(i) < 63 && Amount(i + 1) == Amount(i) + 1
  {
    IndexRoundTrip(i);
    WordOrder(i as bv8, 63);
    WordSuccessor(i as bv8);
    WordInverse(i as bv8 + 1);
    WordInverse(63);
  }

  // A shifted one meets any word in nothing or in itself.
  lemma OneBit(m: bv64, i: ShiftAmount)
    ensures Shift(i) != 0 && (And(Shift(i), m) == 0 || And(Shift(i), m) == Shift(i))
  {
  }

  lemma TwoBits(i: ShiftAmount, j: ShiftAmount)
    requires i != j
    ensures And(Shift(i), Shift(j)) == 0
  {
  }

  lemma OneBitBelow(i: ShiftAmount, n: ShiftAmount)
    ensures And(Shift(i), Below(n)) != 0 <==> i < n
  {
  }

  lemma BelowStep(i: ShiftAmount)
    ensures Or(Below(i), Shift(i)) == if i == 63 then ALL_ONES else Below(i + 1)
  {
  }

  lemma AndAssociates(s: bv64, a: bv64, b: bv64)
    ensures And(s, And(a, b)) == And(And(s, a), b)
  {
  }

  lemma AndCommutes(a: bv64, b: bv64)
    ensures And(a, b) == And(b, a)
  {
  }

  lemma RawDistributes(s: bv64, a: bv64, b: bv64)
    ensures s & (a | b) == (s & a) | (s & b)
  {
  }

  lemma AndDistributes(s: bv64, a: bv64, b: bv64)
    ensures And(s, Or(a, b)) == Or(And(s, a), And(s, b))
  {
    RawDistributes(s, a, b);
    assert And(s, a | b) == s & (a | b);
    assert Or(s & a, s & b) == (s & a) | (s & b);
  }

  lemma RawOfNot(s: bv64, a: bv64)
    ensures s & !a == s ^ (s & a)
  {
  }

  lemma AndOfNot(s: bv64, a: bv64)
    ensures And(s, Not(a)) == Xor(s, And(s, a))
  {
    RawOfNot(s, a);
    assert And(s, !a) == s & !a;
    assert Xor(s, s & a) == s ^ (s & a);
  }

  lemma Units(a: bv64)
    ensures And(a, 0) == And(0, a) == 0 && And(a, ALL_ONES) == a && And(a, a) == a
    ensures Or(a, 0) == Or(0, a) == a && Or(a, a) == a
    ensures Xor(a, 0) == a && Xor(a, a) == 0 && Xor(a, ALL_ONES) == Not(a)
  {
  }

  lemma ShiftDoubles(i: ShiftAmount)
    ensures Shift(0) == 1
    ensures i < 63 ==> Shift(i + 1) == Shift(i) + Shift(i)
  {
  }

  lemma BelowDoubles(i: ShiftAmount)
    ensures Below(0) == 0
    ensures (if i == 63 then 0xFFFF_FFFF_FFFF_FFFF else Below(i + 1)) == Below(i) + Below(i) + 1
  {
  }

  lemma AmountOfZero()
    ensures Amount(0) == 0
  {
    WordInverse(0);
  }

  /** The numeric value of the bit of an index: 1, and doubled from each index to the next. */
  lemma SingleIsPowerOfTwo(i: Index)
    ensures Single(0) == 1
    ensures i < 63 ==> Single(i + 1) == Single(i) + Single(i)
  {
    hide Shift, Amount;
    AmountOfZero();
    AmountStep(i);
    ShiftDoubles(Amount(i));
  }

  /** The numeric value of the whole mask: 2^n - 1, by doubling, up to n = 64. */
  lemma WholeIsPowerOfTwoLessOne(n: nat)
    requires n < 64
    ensures Whole(0) == 0
    ensures Whole(n + 1) == Whole(n) + Whole(n) + 1
  {
    hide Below, Amount;
    AmountOfZero();
    AmountStep(n);
    BelowDoubles(Amount(n));
  }

  /** The whole mask of a packet, and the error of a packet with too many sub-packets. */
  lemma WholeMaskMeans(n: nat)
    ensures var whole := WholeMaskGet(n);
            && (n > 64 ==> whole.status < 0 && whole.mask == 0)
            && (n <= 64 ==> whole.status == 0 && Bits(whole.mask) == Range(n))
  {
    hide Whole, Bits;
    if n <= 64 { BitsWhole(n); }
  }

  // -------------------------------------------------------------------------
  // The operators, one bit at a time.
  // -------------------------------------------------------------------------

  lemma BitSplit(m: bv64, i: Index)
    ensures Single(i) != 0 && (And(Single(i), m) == 0 || And(Single(i), m) == Single(i))
  {
    hide Shift, And, Amount;
    OneBit(m, Amount(i));
  }

  lemma BitOfAnd(a: bv64, b: bv64, i: Index)
    ensures Bit(And(a, b), i) <==> Bit(a, i) && Bit(b, i)
  {
    hide Single, And;
    BitSplit(a, i);
    BitSplit(b, i);
    AndAssociates(Single(i), a, b);
    Units(b);
  }

  lemma BitOfOr(a: bv64, b: bv64, i: Index)
    ensures Bit(Or(a, b), i) <==> Bit(a, i) || Bit(b, i)
  {
    hide Single, And, Or;
    BitSplit(a, i);
    BitSplit(b, i);
    AndDistributes(Single(i), a, b);
    Units(Single(i));
    Units(0);
  }

  lemma BitOfNot(a: bv64, i: Index)
    ensures Bit(Not(a), i) <==> !Bit(a, i)
  {
    hide Single, And, Not, Xor;
    BitSplit(a, i);
    AndOfNot(Single(i), a);
    Units(Single(i));
  }

  lemma BitOfOnes(i: Index)
    ensures Bit(ALL_ONES, i)
  {
    hide Single, And;
    BitSplit(ALL_ONES, i);
    Units(Single(i));
  }

  lemma BitOfSingle(i: Index, j: Index)
    ensures Bit(Single(i), j) <==> i == j
  {
    hide Shift, And, Amount;
    if i != j {
      AmountOrder(i, j);
      TwoBits(Amount(j), Amount(i));
    } else {
      BitSplit(Single(i), i);
      Units(Single(i));
    }
  }

  lemma BitOfLow(i: Index, n: Index)
    ensures Bit(Low(n), i) <==> i < n
  {
    hide Shift, Below, And, Amount;
    AmountOrder(i, n);
    OneBitBelow(Amount(i), Amount(n));
  }

  // -------------------------------------------------------------------------
  // The same operations as set operations.
  // -------------------------------------------------------------------------

  lemma BitsWhole(n: nat)
    requires n <= 64
    ensures Bits(Whole(n)) == Range(n)
  {
    hide Bit, Low;
    forall i: nat | i < 64 ensures Bit(Whole(n), i) <==> i < n {
      if n == 64 { BitOfOnes(i); } else { BitOfLow(i, n); }
    }
  }

  lemma BitsWith(m: bv64, i: Index)
    ensures Bits(With(m, i)) == Bits(m) + {i}
  {
    hide Single, Bit, Or;
    forall j: nat | j < 64 ensures Bit(With(m, i), j) <==> Bit(m, j) || i == j {
      BitOfOr(m, Single(i), j);
      BitOfSingle(i, j);
    }
  }

  lemma BitsWithout(m: bv64, i: Index)
    ensures Bits(Without(m, i)) == Bits(m) - {i}
  {
    hide Single, Bit, And, Not;
    forall j: nat | j < 64 ensures Bit(Without(m, i), j) <==> Bit(m, j) && i != j {
      BitOfAnd(m, Not(Single(i)), j);
      BitOfNot(Single(i), j);
      BitOfSingle(i, j);
    }
  }

  // Holds of every received word, also one with bits at or above n.
  lemma BitsMissing(received: bv64, n: nat)
    requires n <= 64
    ensures Bits(Missing(received, n)) == Range(n) - Bits(received)
  {
    hide Low, Bit, And, Not, Xor;
    Units(received);
    forall i: nat | i < 64 ensures Bit(Missing(received, n), i) <==> i < n && !Bit(received, i) {
      BitOfNot(received, i);
      if n < 64 {
        BitOfAnd(Not(received), Low(n), i);
        BitOfLow(i, n);
      }
    }
  }

  lemma WholeStep(n: nat)
    requires 0 < n <= 64
    ensures Whole(n) == Or(Whole(n - 1), Single(n - 1))
  {
    hide Shift, Below, Or, Amount;
    AmountStep(n - 1);
    BelowStep(Amount(n - 1));
  }

  // Two words that agree on the bits below n agree under the mask of those bits.
  lemma {:induction false} AgreeBelow(a: bv64, b: bv64, n: nat)
    requires n <= 64
    requires forall i: nat | i < n :: Bit(a, i) == Bit(b, i)
    ensures And(a, Whole(n)) == And(b, Whole(n))
  {
    hide Single, Whole, And, Or;
    if n == 0 {
      WholeZero();
      Units(a);
      Units(b);
    } else {
      AgreeBelow(a, b, n - 1);
      WholeStep(n);
      AndDistributes(a, Whole(n - 1), Single(n - 1));
      AndDistributes(b, Whole(n - 1), Single(n - 1));
      assert Bit(a, n - 1) == Bit(b, n - 1);
      BitSplit(a, n - 1);
      BitSplit(b, n - 1);
      AndCommutes(Single(n - 1), a);
      AndCommutes(Single(n - 1), b);
    }
  }

  lemma WholeZero()
    ensures Whole(0) == 0
  {
    AmountOrder(0, 0);
    WordInverse(0);
  }

  // A mask word is determined by the set of its bits.
  lemma BitsInjective(a: bv64, b: bv64)
    ensures Bits(a) == Bits(b) <==> a == b
  {
    hide Bit, And;
    if Bits(a) == Bits(b) {
      forall i: nat | i < 64 ensures Bit(a, i) == Bit(b, i) {
        assert i in Bits(a) <==> i in Bits(b);
      }
      AgreeBelow(a, b, 64);
      Units(a);
      Units(b);
    }
  }

  lemma BitsZero(m: bv64)
    ensures Bits(m) == {} <==> m == 0
  {
    hide Bits, Whole;
    WholeZero();
    BitsWhole(0);
    BitsInjective(m, Whole(0));
  }

  lemma BitsOfAndOr(a: bv64, b: bv64)
    ensures Bits(And(a, b)) == Bits(a) * Bits(b)
    ensures Bits(Or(a, b)) == Bits(a) + Bits(b)
  {
    hide Bit, And, Or;
    forall i: nat | i < 64
      ensures Bit(And(a, b), i) <==> Bit(a, i) && Bit(b, i)
      ensures Bit(Or(a, b), i) <==> Bit(a, i) || Bit(b, i)
    {
      BitOfAnd(a, b, i);
      BitOfOr(a, b, i);
    }
  }

  /** The missing word and the received word split the whole mask, and nothing is missing exactly
      when the receiver's done test holds. */
  lemma MissingSplitsWhole(received: bv64, n: nat)
    requires n <= 64 && Bits(received) <= Range(n)
    ensures And(Missing(received, n), received) == 0
    ensures Or(Missing(received, n), received) == Whole(n)
    ensures Missing(received, n) == 0 <==> received == Whole(n)
  {
    hide Bits, Missing, Whole, And, Or;
    var missing := Missing(received, n);
    BitsMissing(received, n);
    BitsWhole(n);
    BitsOfAndOr(missing, received);
    BitsZero(And(missing, received));
    BitsInjective(Or(missing, received), Whole(n));
    BitsZero(missing);
    BitsInjective(received, Whole(n));
    SplitSet(Range(n), Bits(received));
  }

  lemma SplitSet(whole: set<nat>, part: set<nat>)
    requires part <= whole
    ensures (whole - part) * part == {} && (whole - part) + part == whole
    ensures whole - part == {} <==> part == whole
  {
    if whole - part == {} {
      forall x | x in whole ensures x in part { assert x !in whole - part; }
    }
  }

  lemma {:induction false} SubsetSize(a: set<nat>, b: set<nat>)
    requires a <= b
    ensures |a| <= |b|
    decreases |a|
  {
    if x :| x in a {
      SubsetSize(a - {x}, b - {x});
    }
  }
}
