/** The test DApp that adds a byte fixed at deployment to every element of the arrays it is
    called with. */
module IncrementorDApp {
  import opened JavaTypes
  import opened Wrappers

  /** INCREMENT_BY: the first byte of the deployment data; with no data the class initializer
      fails (an index out of bounds), which is None here. */
  function IncrementBy(deployData: Bytes): (increment: Option<Byte>)
    ensures increment.Some? <==> |deployData| > 0
    ensures increment.Some? ==> increment.value == deployData[0]
  {
    if |deployData| > 0 then Some(deployData[0]) else None
  }

  /** Every element plus `increment`, wrapped to a signed byte as `array[i] += INCREMENT_BY` does. */
  function Incremented(s: Bytes, increment: Byte): Bytes
  {
    seq(|s|, i requires 0 <= i < |s| => ToByte(s[i] + increment))
  }

  /** incrementArray: adds `increment` to every element in place and returns the same array. */
  method IncrementArray(a: array<Byte>, increment: Byte) returns (r: array<Byte>)
    modifies a
    ensures r == a
    ensures a[..] == Incremented(old(a[..]), increment)
  {
    for i := 0 to a.Length
      invariant forall k :: 0 <= k < i ==> a[k] == ToByte(old(a[k]) + increment)
      invariant forall k :: i <= k < a.Length ==> a[k] == old(a[k])
    {
      a[i] := ToByte(a[i] + increment);  // a[i] += INCREMENT_BY
    }
    return a;
  }

  /** The length is kept and each element moves by `increment`, modulo 256. */
  lemma IncrementedAt(s: Bytes, increment: Byte, i: int)
    requires 0 <= i < |s|
    ensures |Incremented(s, increment)| == |s|
    ensures (Incremented(s, increment)[i] - s[i] - increment) % BYTE_RANGE == 0
  {
  }

  /** An increment of zero changes nothing. */
  lemma {:induction false} IncrementByZero(s: Bytes)
    ensures Incremented(s, 0) == s
  {
    forall i | 0 <= i < |s|
      ensures Incremented(s, 0)[i] == s[i]
    {
      ToByteCongruent(s[i], s[i]);
    }
  }

  lemma SubMultiples(x: int, y: int)
    requires x % BYTE_RANGE == 0 && y % BYTE_RANGE == 0
    ensures (x - y) % BYTE_RANGE == 0
  {
    var p, q := x / BYTE_RANGE, y / BYTE_RANGE;
    assert x - y == BYTE_RANGE * (p - q);
  }

  /** Two increments are one increment by their wrapped sum. */
  lemma IncrementCompose(s: Bytes, a: Byte, b: Byte)
    ensures Incremented(Incremented(s, a), b) == Incremented(s, ToByte(a + b))
  {
    forall i | 0 <= i < |s|
      ensures Incremented(Incremented(s, a), b)[i] == Incremented(s, ToByte(a + b))[i]
    {
      var once := ToByte(s[i] + a);
      var d1, d2 := once - (s[i] + a), ToByte(a + b) - (a + b);
      SubMultiples(d1, d2);
      assert (once + b) - (s[i] + ToByte(a + b)) == d1 - d2;
      ToByteCongruent(once + b, s[i] + ToByte(a + b));
    }
  }

  /** Incrementing by `increment` and then by its two's-complement negation gives the array back. */
  lemma IncrementInverse(s: Bytes, increment: Byte)
    ensures Incremented(Incremented(s, increment), ToByte(-(increment as int))) == s
  {
    IncrementCompose(s, increment, ToByte(-(increment as int)));
    assert ToByte(increment + ToByte(-(increment as int))) == 0 by {
      ToByteCongruent(increment + ToByte(-(increment as int)), 0);
    }
    IncrementByZero(s);
  }
}
