/** Java's fixed-width integers and the narrowing conversions the modelled code relies on. */
module JavaTypes {

  const BYTE_RANGE: int := 0x100
  const INT_RANGE: int := 0x1_0000_0000

  /** Java `byte`: signed, 8 bits. */
  type Byte = x: int | -0x80 <= x < 0x80
  /** Java `int`: signed, 32 bits. */
  type Int = x: int | -0x8000_0000 <= x < 0x8000_0000
  /** Java `long`: signed, 64 bits. */
  type Long = x: int | -0x8000_0000_0000_0000 <= x < 0x8000_0000_0000_0000
  /** Java `byte[]`, never null here. */
  type Bytes = seq<Byte>

  /** Narrowing to `byte`, as a `(byte)` cast or a compound `+=` on a byte element does:
      the unique byte congruent to x modulo 256. */
  function ToByte(x: int): (b: Byte)
    ensures (b - x) % BYTE_RANGE == 0
  {
    var m := x % BYTE_RANGE;
    if m < 0x80 then m else m - BYTE_RANGE
  }

  /** Narrowing to `int`, as 32-bit addition and multiplication wrap around. */
  function ToInt(x: int): (i: Int)
    ensures (i - x) % INT_RANGE == 0
  {
    var m := x % INT_RANGE;
    if m < 0x8000_0000 then m else m - INT_RANGE
  }

  /** Congruent arguments narrow to the same byte. */
  lemma ToByteCongruent(x: int, y: int)
    requires (x - y) % BYTE_RANGE == 0
    ensures ToByte(x) == ToByte(y)
  {
    var q := (x - y) / BYTE_RANGE;
    assert x == y + BYTE_RANGE * q;
  }

  /** Congruent arguments narrow to the same int. */
  lemma ToIntCongruent(x: int, y: int)
    requires (x - y) % INT_RANGE == 0
    ensures ToInt(x) == ToInt(y)
  {
    var q := (x - y) / INT_RANGE;
    assert x == y + INT_RANGE * q;
  }

  /** Adding to a wrapped value wraps like adding to the exact value. */
  lemma ToIntAdd(x: int, c: int)
    ensures ToInt(ToInt(x) + c) == ToInt(x + c)
  {
    var w := ToInt(x);
    assert (w + c) - (x + c) == w - x;
    ToIntCongruent(w + c, x + c);
  }

  /** `b & 0xFF`: the byte read as unsigned, in 0..255. */
  function UnsignedByte(b: Byte): (v: nat)
    ensures v < BYTE_RANGE && ToByte(v) == b
  {
    if b < 0 then b + BYTE_RANGE else b
  }

  /** `(byte) v` for v in 0..255: the byte whose unsigned reading is v. */
  function FromUnsigned(v: nat): (b: Byte)
    requires v < BYTE_RANGE
    ensures UnsignedByte(b) == v
  {
    if v < 0x80 then v else v - BYTE_RANGE
  }
}
