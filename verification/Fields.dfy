/** Message fields as bytes: the C integer types of the message fields over the store and load loops. */
module Fields {
  import opened Types
  import LE = LittleEndian
  import Masks

  // Integer conversions of C: a field widened to 64 bits, and the low part of a 64-bit value.
  function Byte(x: uint8): bv8 { x as bv8 }
  function Half(x: uint16): bv16 { x as bv16 }
  function Byte64(b: bv8): bv64 { b as bv64 }
  function Half64(b: bv16): bv64 { b as bv64 }
  function LowByte(v: bv64): bv8 { (v & 0xff) as bv8 }
  function LowHalf(v: bv64): bv16 { (v & 0xffff) as bv16 }
  function ByteValue(b: bv8): uint8 { b as nat }
  function HalfValue(b: bv16): uint16 { b as nat }

  function Put8(x: uint8): (b: Bytes) ensures |b| == 1 { LE.Stored(Byte64(Byte(x)), 1) }
  function Put16(x: uint16): (b: Bytes) ensures |b| == 2 { LE.Stored(Half64(Half(x)), 2) }
  function Put64(v: bv64): (b: Bytes) ensures |b| == 8 { LE.Stored(v, 8) }

  function Get8(b: Bytes): uint8 requires |b| == 1 { ByteValue(LowByte(LE.Loaded(b))) }
  function Get16(b: Bytes): uint16 requires |b| == 2 { HalfValue(LowHalf(LE.Loaded(b))) }
  function Get64(b: Bytes): bv64 requires |b| == 8 { LE.Loaded(b) }

  lemma Widened(b: bv8, h: bv16)
    ensures LE.UpTo(Byte64(b), 8) && LowByte(Byte64(b)) == b
    ensures LE.UpTo(Half64(h), 16) && LowHalf(Half64(h)) == h
  {
  }

  lemma Narrowed(v: bv64)
    ensures LE.UpTo(v, 8) ==> Byte64(LowByte(v)) == v
    ensures LE.UpTo(v, 16) ==> Half64(LowHalf(v)) == v
  {
  }

  lemma ByteRoundTrip(x: uint8, b: bv8)
    ensures ByteValue(Byte(x)) == x && Byte(ByteValue(b)) == b
  {
    Masks.IndexRoundTrip(x);
    Masks.WordInverse(b);
  }

  lemma TwoBytes(high: bv8, low: bv8)
    ensures (((high as bv16) << 8) | (low as bv16)) as nat == 256 * (high as nat) + low as nat
  {
  }

  lemma HalfInverse(b: bv16)
    ensures (b as nat) as bv16 == b
  {
  }

  lemma HalfRoundTrip(x: uint16, b: bv16)
    ensures HalfValue(Half(x)) == x && Half(HalfValue(b)) == b
  {
    HalfInverse(b);
    var high := Masks.ByteOf(x / 256);
    var low := Masks.ByteOf(x % 256);
    TwoBytes(high, low);
    HalfInverse(((high as bv16) << 8) | (low as bv16));
  }

  lemma Shifts()
    ensures LE.ShiftFor(1) == 8 && LE.ShiftFor(2) == 16
  {
    LE.ShiftIsMultiple(1);
    LE.ShiftIsMultiple(2);
  }

  // Two bytes put together, in 16 and in 64 bits.
  function Joined(high: bv8, low: bv8): bv16 { ((high as bv16) << 8) | (low as bv16) }
  function Joined64(high: bv8, low: bv8): bv64 { ((high as bv64) << 8) | (low as bv64) }

  lemma ByteIsJoined(b: bv8)
    ensures Byte64(b) == ((0 as bv64) << 8) | (b as bv64)
    ensures Byte64(b) <= 0xff_ffff_ffff_ffff
  {
  }

  lemma HalfIsJoined(h: bv16) returns (high: bv8, low: bv8)
    ensures h == Joined(high, low) && Half64(h) == Joined64(high, low)
  {
    high, low := (h >> 8) as bv8, (h & 0xff) as bv8;
  }

  lemma WidenedByte(b: bv8)
    ensures LE.Number(Byte64(b)) == ByteValue(b)
  {
    ByteIsJoined(b);
    LE.JoinValue(0, b);
  }

  lemma JoinedValue(high: bv8, low: bv8)
    ensures HalfValue(Joined(high, low)) == 0x100 * ByteValue(high) + ByteValue(low)
  {
    TwoBytes(high, low);
  }

  lemma Joined64Value(high: bv8, low: bv8)
    ensures LE.Number(Joined64(high, low)) == 0x100 * LE.Number(Byte64(high)) + ByteValue(low)
  {
    ByteIsJoined(high);
    LE.JoinValue(Byte64(high), low);
  }

  lemma WidenedHalf(h: bv16)
    ensures LE.Number(Half64(h)) == HalfValue(h)
  {
    hide LE.Number, Byte64, Half64, ByteValue, HalfValue, Joined, Joined64;
    var high, low := HalfIsJoined(h);
    JoinedValue(high, low);
    Joined64Value(high, low);
    WidenedByte(high);
  }

  lemma NumberOfByte(x: uint8)
    ensures LE.Number(Byte64(Byte(x))) == x
  {
    hide LE.Number, Byte64, Byte, ByteValue;
    ByteRoundTrip(x, 0);
    WidenedByte(Byte(x));
  }

  lemma NumberOfHalf(y: uint16)
    ensures LE.Number(Half64(Half(y))) == y
  {
    hide LE.Number, Half64, Half, HalfValue;
    HalfRoundTrip(y, 0);
    WidenedHalf(Half(y));
  }

  /** The bytes of a field mean its value. */
  lemma ValueOfPut(x: uint8, y: uint16, v: bv64)
    ensures LE.Value(Put8(x)) == x && LE.Value(Put16(y)) == y && LE.Value(Put64(v)) == v as nat
  {
    hide Byte, Half, Byte64, Half64, LE.UpTo, LE.Stored, LE.ShiftFor, LE.Value;
    Shifts();
    Widened(Byte(x), Half(y));
    NumberOfByte(x);
    NumberOfHalf(y);
    LE.ValueOfStored(Byte64(Byte(x)), 1);
    LE.ValueOfStored(Half64(Half(y)), 2);
    LE.ValueOfStored(v, 8);
  }

  /** Every field comes back from its bytes, */
  lemma GetOfPut(x: uint8, y: uint16, v: bv64)
    ensures Get8(Put8(x)) == x && Get16(Put16(y)) == y && Get64(Put64(v)) == v
  {
    hide Byte, Half, Byte64, Half64, LowByte, LowHalf, ByteValue, HalfValue;
    hide LE.UpTo, LE.Loaded, LE.Stored, LE.ShiftFor;
    Shifts();
    ByteRoundTrip(x, 0);
    HalfRoundTrip(y, 0);
    Widened(Byte(x), Half(y));
    LE.LoadOfStored(Byte64(Byte(x)), 1);
    LE.LoadOfStored(Half64(Half(y)), 2);
    LE.LoadOfStored(v, 8);
  }

  /** and every byte string of a field's width comes back from its value. */
  lemma PutOfGet(b: Bytes)
    ensures |b| == 1 ==> Put8(Get8(b)) == b
    ensures |b| == 2 ==> Put16(Get16(b)) == b
    ensures |b| == 8 ==> Put64(Get64(b)) == b
  {
    hide Byte, Half, Byte64, Half64, LowByte, LowHalf, ByteValue, HalfValue;
    hide LE.UpTo, LE.Loaded, LE.Stored, LE.ShiftFor;
    if |b| <= 8 {
      Shifts();
      var v := LE.Loaded(b);
      LE.LoadedFits(b);
      Narrowed(v);
      ByteRoundTrip(0, LowByte(v));
      HalfRoundTrip(0, LowHalf(v));
      LE.StoreOfLoaded(b);
    }
  }
}
