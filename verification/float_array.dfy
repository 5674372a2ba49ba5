/** The sandbox wrapper around a Java `float[]`. Elements are treated as opaque 32-bit values:
    nothing here does float arithmetic. */
module ArrayWrapper {
  import opened JavaTypes
  import opened Wrappers
  import opened EnergyHelper

  /** A float by its bit pattern. */
  datatype Float = Float(bits: bv32)

  /** The value a new `float[]` is filled with: 0.0f, whose bits are all zero. */
  const ZERO: Float := Float(0)

  /** The exceptions the wrapper's operations can raise. */
  datatype ArrayError =
    | OutOfEnergy          // the allocation charge does not fit (OutOfEnergyError)
    | NegativeArraySize    // `new float[c]` with c < 0
    | IndexOutOfBounds     // an access outside 0 .. length - 1

  /** The energy initArray charges for a `float[c]`: 32 per element. */
  function InitArrayCharge(c: Int): (charge: int)
    ensures charge < 0 <==> c < 0
    ensures charge % 32 == 0
  {
    c * 32
  }

  /** A larger array never costs less, and no array has a negative charge. */
  lemma InitArrayChargeMonotone(small: Int, large: Int)
    requires 0 <= small <= large
    ensures 0 <= InitArrayCharge(small) <= InitArrayCharge(large)
  {
  }

  /** The charge as written: `c * 32` is evaluated in 32-bit int arithmetic and wraps. */
  function InitArrayChargeAsWritten(c: Int): (charge: Int)
    ensures (charge - InitArrayCharge(c)) % INT_RANGE == 0
  {
    ToInt(c * 32)
  }

  /** For sizes below 2^26 the written charge is the intended one. */
  lemma InitArrayChargeAsWrittenSmall(c: Int)
    requires 0 <= c < 0x400_0000
    ensures InitArrayChargeAsWritten(c) == InitArrayCharge(c)
  {
  }

  /** At 2^26 elements the written charge turns negative, and at 2^27 elements a 512 MiB
      array is charged nothing: the charge of a larger array falls below that of a single
      element. */
  lemma InitArrayChargeAsWrittenWraps()
    ensures InitArrayChargeAsWritten(0x400_0000) == -0x8000_0000
    ensures InitArrayChargeAsWritten(0x800_0000) == 0
    ensures InitArrayChargeAsWritten(0x800_0000) < InitArrayChargeAsWritten(1)
  {
    assert 0x400_0000 * 32 == 0x8000_0000;
    assert 0x800_0000 * 32 == INT_RANGE;
  }

  class FloatArray {
    /** The wrapped array; the wrapper has no other state. */
    const underlying: array<Float>

    /** `new FloatArray(c)`: a fresh array of c zeros. */
    constructor (c: nat)
      ensures fresh(underlying)
      ensures underlying.Length == c
      ensures forall i :: 0 <= i < c ==> underlying[i] == ZERO
    {
      underlying := new Float[c](_ => ZERO);
    }

    /** `new FloatArray(arr)`: wraps arr without copying, so writes through either are seen by
        both. */
    constructor Wrap(arr: array<Float>)
      ensures underlying == arr
    {
      underlying := arr;
    }

    method Length() returns (n: nat)
      ensures n == underlying.Length
    {
      n := underlying.Length;
    }

    /** `get(idx)`: the element at idx; outside the array Java's bounds check throws. */
    method Get(idx: Int) returns (r: Result<Float, ArrayError>)
      ensures 0 <= idx < underlying.Length <==> r.Ok?
      ensures r.Ok? ==> r.value == underlying[idx]
      ensures r.Err? ==> r.error == IndexOutOfBounds
    {
      if 0 <= idx < underlying.Length {
        r := Ok(underlying[idx]);
      } else {
        r := Err(IndexOutOfBounds);
      }
    }

    /** `set(idx, val)`: writes one element in place; outside the array nothing changes and
        Java's bounds check throws. */
    method Set(idx: Int, val: Float) returns (r: Result<(), ArrayError>)
      modifies underlying
      ensures 0 <= idx < underlying.Length <==> r.Ok?
      ensures r.Ok? ==> underlying[..] == old(underlying[..])[idx := val]
      ensures r.Err? ==> r.error == IndexOutOfBounds && underlying[..] == old(underlying[..])
    {
      if 0 <= idx < underlying.Length {
        underlying[idx] := val;
        r := Ok(());
      } else {
        r := Err(IndexOutOfBounds);
      }
    }
  }

  /** `initArray(c)`: charges first, then allocates. A charge that does not fit allocates
      nothing; a negative size fails after the charge. The helper is passed in explicitly. */
  method InitArray(helper: EnergyMeter, c: Int) returns (r: Result<FloatArray, ArrayError>)
    modifies helper
    ensures InitArrayCharge(c) > old(helper.remaining) <==> r == Err(OutOfEnergy)
    ensures helper.remaining == if r == Err(OutOfEnergy) then old(helper.remaining)
                                else old(helper.remaining) - InitArrayCharge(c)
    ensures r == Err(NegativeArraySize) <==> InitArrayCharge(c) <= old(helper.remaining) && c < 0
    ensures r.Ok? <==> InitArrayCharge(c) <= old(helper.remaining) && 0 <= c
    ensures r.Ok? ==> && fresh(r.value) && fresh(r.value.underlying) && r.value.underlying.Length == c
                      && forall i :: 0 <= i < c ==> r.value.underlying[i] == ZERO
  {
    var charged := helper.Charge(InitArrayCharge(c));
    if !charged {
      return Err(OutOfEnergy);
    }
    if c < 0 {
      return Err(NegativeArraySize);
    }
    var a := new FloatArray(c);
    r := Ok(a);
  }

  /** A write through a wrapper is read back through a second wrapper of the same array, and
      the other elements and the length stay as they were. */
  method SharedWrite(arr: array<Float>, idx: Int, val: Float) returns (seen: Result<Float, ArrayError>)
    requires 0 <= idx < arr.Length
    modifies arr
    ensures seen == Ok(val)
    ensures arr[..] == old(arr[..])[idx := val]
  {
    var writer := new FloatArray.Wrap(arr);
    var reader := new FloatArray.Wrap(arr);
    var _ := writer.Set(idx, val);
    seen := reader.Get(idx);
  }
}
