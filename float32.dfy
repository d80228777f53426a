/** The value of a stored IEEE-754 binary32 word.

    Float fields are carried through the codecs as their raw 4- or 8-byte
    words; this decoder gives the exact value of a 4-byte word where the
    program compares or converts one: the version tests of every container
    header and the Index value tests (is_set?, to_i). */
module Float32 {
  import opened Results
  import opened Bytes

  datatype Float = Finite(r: real) | PosInf | NegInf | NaN

  /** 2 to the power k. */
  function Pow2(k: nat): (r: nat)
    ensures r > 0
  {
    if k == 0 then 1 else 2 * Pow2(k - 1)
  }

  /** The binary32 value of a little-endian word: sign bit 31, biased
      exponent bits 23-30, fraction bits 0-22. */
  function Decode(w: Bytes): (f: Float)
    requires |w| == 4
    ensures f.NaN? || f.PosInf? || f.NegInf? <==> (LeValue(w) / 0x80_0000) % 256 == 255
  {
    var bits := LeValue(w);
    var negative := bits >= 0x8000_0000;
    var e := (bits / 0x80_0000) % 256;
    var m := bits % 0x80_0000;
    if e == 255 then
      (if m != 0 then NaN else if negative then NegInf else PosInf)
    else
      var magnitude :=
        if e == 0 && m == 0 then 0.0
        else if e == 0 then m as real / Pow2(149) as real
        else if e >= 150 then ((0x80_0000 + m) * Pow2(e - 150)) as real
        else (0x80_0000 + m) as real / Pow2(150 - e) as real;
      Finite(if negative then -magnitude else magnitude)
  }

  /** Ruby Float#to_i: truncation toward zero; NaN and the infinities raise
      FloatDomainError. */
  function Truncate(f: Float): (r: Result<int>)
    ensures r.Ok? <==> f.Finite?
    ensures r.Ok? ==> (r.value as real) <= f.r || f.r < 0.0
    ensures r.Ok? && f.r >= 0.0 ==> r.value as real <= f.r < r.value as real + 1.0
    ensures r.Ok? && f.r < 0.0 ==> r.value as real - 1.0 < f.r <= r.value as real
  {
    match f
    case Finite(x) => Ok(if x >= 0.0 then x.Floor else -((-x).Floor))
    case _ => Err(FloatDomain)
  }

  /** The words the program writes for its float literals. */
  const ONE: Bytes := [0, 0, 128, 63]               // 1.0f
  const ONE_POINT_ONE: Bytes := [205, 204, 140, 63]   // 1.1f
  const ONE_POINT_TWO: Bytes := [154, 153, 153, 63]   // 1.2f
  const ONE_POINT_THREE: Bytes := [102, 102, 166, 63] // 1.3f
  const TWO_POINT_TWO: Bytes := [205, 204, 12, 64]    // 2.2f
  const THREE: Bytes := [0, 0, 64, 64]                // 3.0f
  const ZERO: Bytes := [0, 0, 0, 0]                   // 0.0f

  lemma Pow2Values()
    ensures Pow2(22) == 4194304 && Pow2(23) == 8388608
  {
    assert Pow2(6) == 64;
    assert Pow2(12) == 4096;
    assert Pow2(18) == 262144;
    assert Pow2(22) == 4194304;
  }

  /** The value of a normal word with exponent field 127 or 128 (numbers in
      [1, 4)), from its bits. */
  lemma DecodeNear(w: Bytes, bits: nat)
    requires |w| == 4 && LeValue(w) == bits
    requires 0x3F80_0000 <= bits < 0x4080_0000
    ensures bits < 0x4000_0000 ==>
      Decode(w) == Finite((bits - 0x3F80_0000 + 0x80_0000) as real / 8388608.0)
    ensures bits >= 0x4000_0000 ==>
      Decode(w) == Finite((bits - 0x4000_0000 + 0x80_0000) as real / 4194304.0)
  {
    Pow2Values();
    if bits < 0x4000_0000 {
      assert (bits / 0x80_0000) % 256 == 127;
      assert bits % 0x80_0000 == bits - 0x3F80_0000;
    } else {
      assert (bits / 0x80_0000) % 256 == 128;
      assert bits % 0x80_0000 == bits - 0x4000_0000;
    }
  }

  /** Exact values of the words the program writes. The decimal literals
      are not binary32 values; each word is the nearest one. */
  lemma VersionValues()
    ensures Decode(ONE_POINT_ONE) == Finite(9227469.0 / 8388608.0)
    ensures Decode(ONE_POINT_TWO) == Finite(5033165.0 / 4194304.0)
    ensures Decode(TWO_POINT_TWO) == Finite(9227469.0 / 4194304.0)
    ensures Decode(THREE) == Finite(3.0)
  {
    hide Decode, Pow2;
    assert LeValue(ONE_POINT_ONE) == 0x3F8C_CCCD;
    DecodeNear(ONE_POINT_ONE, 0x3F8C_CCCD);
    assert LeValue(ONE_POINT_TWO) == 0x3F99_999A;
    DecodeNear(ONE_POINT_TWO, 0x3F99_999A);
    assert LeValue(TWO_POINT_TWO) == 0x400C_CCCD;
    DecodeNear(TWO_POINT_TWO, 0x400C_CCCD);
    assert LeValue(THREE) == 0x4040_0000;
    DecodeNear(THREE, 0x4040_0000);
  }

  lemma OneValue()
    ensures Decode(ONE) == Finite(1.0)
    ensures Decode(ONE_POINT_THREE) == Finite(5452595.0 / 4194304.0)
  {
    hide Decode, Pow2;
    assert LeValue(ONE) == 0x3F80_0000;
    DecodeNear(ONE, 0x3F80_0000);
    assert LeValue(ONE_POINT_THREE) == 0x3FA6_6666;
    DecodeNear(ONE_POINT_THREE, 0x3FA6_6666);
  }

  lemma ZeroValue()
    ensures Decode(ZERO) == Finite(0.0)
  {
    hide Pow2;
    assert LeValue(ZERO) == 0;
    assert (0 / 0x80_0000) % 256 == 0 && 0 % 0x80_0000 == 0;
  }
}
