/** The little-endian store and load loops of common/utils.h, for widths up to eight bytes. */
module LittleEndian {
  import opened Types
  import Masks

  type Width = w: nat | w <= 8

  // The shifts that the loops use: i * 8 for i below 8.
  type ByteShift = s: bv8 | s == 0 || s == 8 || s == 16 || s == 24 || s == 32 || s == 40 || s == 48 || s == 56

  function ShiftFor(i: nat): ByteShift
    requires i < 8
  {
    ShiftIsMultiple(i);
    (i * 8) as bv8
  }

  // (v >> s) & 0xff
  function Extract(v: bv64, s: ByteShift): bv8 {
    ((v >> s) & 0xff) as bv8
  }

  // (uint64_t) b << s
  function Place(b: bv8, s: ByteShift): bv64 {
    (b as bv64) << s
  }

  // The ones below a shift.
  function Ones(s: ByteShift): bv64 {
    ((1 as bv64) << s) - 1
  }

  // The part of a word below a shift.
  function Cut(v: bv64, s: ByteShift): bv64 {
    v & Ones(s)
  }

  // The part of a word at and above a shift.
  function High(v: bv64, s: ByteShift): bv64 {
    v >> s
  }

  predicate UpTo(v: bv64, s: ByteShift) {
    v <= Ones(s)
  }

  // v < 256^w
  predicate FitsWidth(v: bv64, w: Width) {
    w == 8 || UpTo(v, ShiftFor(w))
  }

  // The bytes that a store of width w writes.
  function Stored(v: bv64, w: Width): (b: Bytes)
    ensures |b| == w
  {
    seq(w, i requires 0 <= i < w => Extract(v, ShiftFor(i)))
  }

  // The value that a load of width |b| accumulates.
  function Loaded(b: Bytes): bv64
    requires |b| <= 8
  {
    if b == [] then 0 else Masks.Or(Loaded(b[..|b| - 1]), Place(b[|b| - 1], ShiftFor(|b| - 1)))
  }

  // LITTLE_ENDIAN_STORE
  method Store(buffer: array<bv8>, at: nat, w: Width, v: bv64)
    requires at + w <= buffer.Length
    modifies buffer
    ensures buffer[..] == old(buffer[..at]) + Stored(v, w) + old(buffer[at + w..])
  {
    hide Extract, ShiftFor;
    for i := 0 to w
      invariant buffer[..at] == old(buffer[..at])
      invariant buffer[at..at + i] == Stored(v, w)[..i]
      invariant buffer[at + w..] == old(buffer[at + w..])
    {
      buffer[at + i] := Extract(v, ShiftFor(i));
    }
  }

  // LITTLE_ENDIAN_LOAD
  method Load(buffer: array<bv8>, at: nat, w: Width) returns (p: bv64)
    requires at + w <= buffer.Length
    ensures p == Loaded(buffer[at..at + w])
  {
    hide Place, ShiftFor, Masks.Or;
    p := 0;
    for i := 0 to w
      invariant p == Loaded(buffer[at..at + i])
    {
      assert buffer[at..at + i + 1][..i] == buffer[at..at + i];
      p := Masks.Or(p, Place(buffer[at + i], ShiftFor(i)));
    }
  }

  lemma ShiftIsMultiple(i: nat)
    requires i < 8
    ensures (i * 8) as bv8 == if i == 0 then 0 else if i == 1 then 8 else if i == 2 then 16 else if i == 3 then 24
                              else if i == 4 then 32 else if i == 5 then 40 else if i == 6 then 48 else 56
  {
    Masks.WordInverse(0);
    Masks.WordInverse(8);
    Masks.WordInverse(16);
    Masks.WordInverse(24);
    Masks.WordInverse(32);
    Masks.WordInverse(40);
    Masks.WordInverse(48);
    Masks.WordInverse(56);
  }

  lemma ShiftStep(i: nat)
    requires i < 8
    ensures i == 0 ==> ShiftFor(i) == 0
    ensures if i == 7 then ShiftFor(i) == 56 else ShiftFor(i) < 56 && ShiftFor(i + 1) == ShiftFor(i) + 8
  {
    ShiftIsMultiple(i);
    if i < 7 { ShiftIsMultiple(i + 1); }
  }

  // -------------------------------------------------------------------------
  // Loading what was stored
  // -------------------------------------------------------------------------

  // One more byte of a word, for each of the eight places.
  lemma JoinAtPlace(v: bv64, s: ByteShift)
    ensures Masks.Or(v & Ones(s), Place(Extract(v, s), s)) == if s == 56 then v else v & Ones(s + 8)
  {
    if s == 0 {} else if s == 8 {} else if s == 16 {} else if s == 24 {}
    else if s == 32 {} else if s == 40 {} else if s == 48 {} else {}
  }

  lemma JoinByte(v: bv64, s: ByteShift)
    ensures Masks.Or(Cut(v, s), Place(Extract(v, s), s)) == if s == 56 then v else Cut(v, s + 8)
  {
    hide Ones, Place, Extract, Masks.Or;
    JoinAtPlace(v, s);
  }

  lemma CutNothing(v: bv64)
    ensures Cut(v, 0) == 0
  {
  }

  lemma CutFitting(v: bv64, s: ByteShift)
    requires UpTo(v, s)
    ensures Cut(v, s) == v
  {
    if s == 0 {} else if s == 8 {} else if s == 16 {} else if s == 24 {}
    else if s == 32 {} else if s == 40 {} else if s == 48 {} else {}
  }

  lemma {:induction false} LoadOfStoredUpTo(v: bv64, w: Width)
    ensures Loaded(Stored(v, w)) == if w == 8 then v else Cut(v, ShiftFor(w))
  {
    hide Cut, Place, Extract, ShiftFor, Masks.Or;
    if w == 0 {
      CutNothing(v);
      ShiftStep(0);
    } else {
      LoadOfStoredUpTo(v, w - 1);
      assert Stored(v, w)[..w - 1] == Stored(v, w - 1);
      ShiftStep(w - 1);
      JoinByte(v, ShiftFor(w - 1));
    }
  }

  /** load(store(v)) = v, for every value of the stored width. */
  lemma LoadOfStored(v: bv64, w: Width)
    requires FitsWidth(v, w)
    ensures Loaded(Stored(v, w)) == v
  {
    hide Cut, UpTo, Loaded, Stored;
    LoadOfStoredUpTo(v, w);
    if w < 8 {
      CutFitting(v, ShiftFor(w));
    }
  }

  // -------------------------------------------------------------------------
  // Storing what was loaded
  // -------------------------------------------------------------------------

  lemma PlaceLeavesLower(v: bv64, b: bv8, s: ByteShift, t: ByteShift)
    requires s < t
    ensures Extract(Masks.Or(v, Place(b, t)), s) == Extract(v, s)
  {
    if s == 0 {} else if s == 8 {} else if s == 16 {} else if s == 24 {}
    else if s == 32 {} else if s == 40 {} else if s == 48 {} else {}
  }

  lemma PlaceIsExtracted(v: bv64, b: bv8, s: ByteShift)
    requires High(v, s) == 0
    ensures Extract(Masks.Or(v, Place(b, s)), s) == b
  {
  }

  lemma PlaceStaysLow(v: bv64, b: bv8, s: ByteShift)
    requires High(v, s) == 0 && s < 56
    ensures High(Masks.Or(v, Place(b, s)), s + 8) == 0
  {
  }

  lemma HighOfZero(s: ByteShift)
    ensures High(0, s) == 0
  {
  }

  // Nothing is accumulated above the bytes loaded, so no value outgrows its type.
  lemma {:induction false} LoadedStaysLow(b: Bytes)
    requires |b| < 8
    ensures High(Loaded(b), ShiftFor(|b|)) == 0
  {
    hide High, Place, ShiftFor, Masks.Or;
    if b == [] {
      HighOfZero(ShiftFor(0));
    } else {
      var last := |b| - 1;
      LoadedStaysLow(b[..last]);
      ShiftStep(last);
      PlaceStaysLow(Loaded(b[..last]), b[last], ShiftFor(last));
    }
  }

  lemma {:induction false} LoadedByte(b: Bytes, i: nat)
    requires |b| <= 8 && i < |b|
    ensures Extract(Loaded(b), ShiftFor(i)) == b[i]
  {
    hide High, Place, Extract, Masks.Or;
    var last := |b| - 1;
    if i == last {
      LoadedStaysLow(b[..last]);
      PlaceIsExtracted(Loaded(b[..last]), b[last], ShiftFor(last));
    } else {
      LoadedByte(b[..last], i);
      ShiftIsMultiple(i);
      ShiftIsMultiple(last);
      PlaceLeavesLower(Loaded(b[..last]), b[last], ShiftFor(i), ShiftFor(last));
    }
  }

  /** store(load(b)) = b, for every byte string of up to eight bytes. */
  lemma StoreOfLoaded(b: Bytes)
    requires |b| <= 8
    ensures Stored(Loaded(b), |b|) == b
  {
    hide Extract, Loaded;
    forall i: nat | i < |b| ensures Extract(Loaded(b), ShiftFor(i)) == b[i] {
      LoadedByte(b, i);
    }
  }

  lemma LowIsBounded(v: bv64, s: ByteShift)
    requires High(v, s) == 0
    ensures UpTo(v, s)
  {
    if s == 0 {} else if s == 8 {} else if s == 16 {} else if s == 24 {}
    else if s == 32 {} else if s == 40 {} else if s == 48 {} else {}
  }

  /** What a load of w bytes returns is a value of w bytes. */
  lemma LoadedFits(b: Bytes)
    requires |b| <= 8
    ensures FitsWidth(Loaded(b), |b|)
  {
    hide High, UpTo, Loaded;
    if |b| < 8 {
      LoadedStaysLow(b);
      LowIsBounded(Loaded(b), ShiftFor(|b|));
    }
  }

  // -------------------------------------------------------------------------
  // The numbers that bytes stand for
  // -------------------------------------------------------------------------

  // Machine words and bytes as numbers.
  function Number(v: bv64): nat { v as nat }
  function ByteNumber(b: bv8): nat { b as nat }

  // What is left of a word without its low byte.
  function Rest(v: bv64): bv64 { v >> 8 }

  // The number that a byte string means, least significant byte first.
  function Value(b: Bytes): nat {
    if b == [] then 0 else ByteNumber(b[0]) + 0x100 * Value(b[1..])
  }

  lemma JoinValue(high: bv64, low: bv8)
    requires high <= 0xff_ffff_ffff_ffff
    ensures ((high << 8) | (low as bv64)) as nat == 0x100 * (high as nat) + low as nat
  {
  }

  lemma SplitWord(v: bv64)
    ensures v >> 8 <= 0xff_ffff_ffff_ffff && ((v >> 8) << 8) | (((v & 0xff) as bv8) as bv64) == v
    ensures Extract(v, 0) == (v & 0xff) as bv8
  {
  }

  lemma SplitValue(v: bv64)
    ensures Number(v) == 0x100 * Number(Rest(v)) + ByteNumber(Extract(v, 0))
  {
    SplitWord(v);
    JoinValue(v >> 8, (v & 0xff) as bv8);
  }

  lemma ByteIsSmall(b: bv8)
    ensures ByteNumber(b) < 0x100
  {
  }

  lemma ExtractHigher(v: bv64, s: ByteShift)
    requires s < 56
    ensures Extract(v, s + 8) == Extract(Rest(v), s)
  {
    if s == 0 {} else if s == 8 {} else if s == 16 {} else if s == 24 {}
    else if s == 32 {} else if s == 40 {} else {}
  }

  lemma StoredRest(v: bv64, w: Width)
    requires w > 0
    ensures Stored(v, w)[0] == Extract(v, 0) && Stored(v, w)[1..] == Stored(Rest(v), w - 1)
  {
    hide Extract, ShiftFor, Rest;
    ShiftStep(0);
    forall i: nat | i < w - 1 ensures Extract(v, ShiftFor(i + 1)) == Extract(Rest(v), ShiftFor(i)) {
      ShiftStep(i);
      ExtractHigher(v, ShiftFor(i));
    }
  }

  lemma LowByteIsRemainder(v: bv64)
    ensures ByteNumber(Extract(v, 0)) == Number(v) % 0x100
  {
    hide Number, ByteNumber, Rest, Extract;
    SplitValue(v);
    ByteIsSmall(Extract(v, 0));
  }

  /** A store writes the low byte of the value first, and then the bytes of the rest. */
  lemma StoredInTurn(v: bv64, w: Width)
    requires w > 0
    ensures Stored(v, w)[0] as nat == v as nat % 0x100
    ensures Stored(v, w)[1..] == Stored(v >> 8, w - 1)
  {
    StoredRest(v, w);
    LowByteIsRemainder(v);
    hide Stored, Extract;
  }

  lemma ShiftedFits(v: bv64, s: ByteShift)
    requires 0 < s && UpTo(v, s)
    ensures UpTo(Rest(v), s - 8)
  {
    if s == 8 {} else if s == 16 {} else if s == 24 {} else if s == 32 {}
    else if s == 40 {} else if s == 48 {} else {}
  }

  lemma RestIsSmall(v: bv64)
    ensures UpTo(Rest(v), 56)
  {
  }

  lemma ShiftedFitsWidth(v: bv64, w: Width)
    requires w > 0 && FitsWidth(v, w)
    ensures FitsWidth(Rest(v), w - 1)
  {
    hide UpTo, Rest;
    ShiftStep(w - 1);
    if w < 8 {
      ShiftedFits(v, ShiftFor(w));
    } else {
      RestIsSmall(v);
    }
  }

  lemma ZeroFits(v: bv64)
    requires UpTo(v, 0)
    ensures Number(v) == 0
  {
  }

  lemma NothingFits(v: bv64)
    requires FitsWidth(v, 0)
    ensures Number(v) == 0
  {
    hide Number, UpTo;
    ShiftStep(0);
    ZeroFits(v);
  }

  lemma {:induction false} ValueOfWord(v: bv64, w: Width)
    requires FitsWidth(v, w)
    ensures Value(Stored(v, w)) == Number(v)
    decreases w
  {
    hide Extract, ShiftFor, FitsWidth, Stored, Number, ByteNumber, Rest;
    if w == 0 {
      NothingFits(v);
    } else {
      ShiftedFitsWidth(v, w);
      ValueOfWord(Rest(v), w - 1);
      StoredRest(v, w);
      SplitValue(v);
    }
  }

  /** The stored bytes mean the value, at every width that it fits, */
  lemma ValueOfStored(v: bv64, w: Width)
    requires FitsWidth(v, w)
    ensures Value(Stored(v, w)) == v as nat
  {
    hide FitsWidth, Stored, Value;
    ValueOfWord(v, w);
  }

  lemma NumberOfLoaded(b: Bytes)
    requires |b| <= 8
    ensures Number(Loaded(b)) == Value(b)
  {
    hide Stored, Loaded, FitsWidth, Number, Value;
    LoadedFits(b);
    ValueOfWord(Loaded(b), |b|);
    StoreOfLoaded(b);
  }

  /** and the loaded value is what the bytes mean. */
  lemma ValueOfLoaded(b: Bytes)
    requires |b| <= 8
    ensures Loaded(b) as nat == Value(b)
  {
    hide Loaded, Value;
    NumberOfLoaded(b);
  }
}
