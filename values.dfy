/**
 * The typed attribute value formatter (`parseAttributeValue`): a type tag
 * and the 32-bit data word it qualifies, rendered as text.
 */
module Values {
  import opened Wrappers
  import opened Jvm
  import opened Format

  const TYPE_ID_REF: int := 0x0100_0008
  const TYPE_ATTR_REF: int := 0x0200_0008
  const TYPE_STRING: int := 0x0300_0008
  const TYPE_FLOAT: int := 0x0400_0008
  const TYPE_DIMEN: int := 0x0500_0008
  const TYPE_FRACTION: int := 0x0600_0008
  const TYPE_INT: int := 0x1000_0008
  const TYPE_FLAGS: int := 0x1100_0008
  const TYPE_BOOL: int := 0x1200_0008
  const TYPE_COLOR: int := 0x1C00_0008
  const TYPE_COLOR2: int := 0x1D00_0008

  /** The dimension units, indexed by the low byte of the data word. */
  const DIMEN: seq<Units> := [Lit("px"), Lit("dp"), Lit("sp"), Lit("pt"), Lit("in"), Lit("mm")]

  predicate IsKnownTag(tag: int) {
    tag in {TYPE_ID_REF, TYPE_ATTR_REF, TYPE_FLOAT, TYPE_DIMEN, TYPE_FRACTION,
            TYPE_INT, TYPE_FLAGS, TYPE_BOOL, TYPE_COLOR, TYPE_COLOR2}
  }

  /** `data & 0xFF` on a Java `int`: the low byte of its bit pattern. */
  function LowByte(data: int): (r: nat)
    requires IsInt32(data)
    ensures r < 0x100
    ensures (data - r) % 0x100 == 0
  {
    Unsigned32(data) % 0x100
  }

  /** `data >> 8` on a Java `int`: the arithmetic shift, which rounds toward minus infinity. */
  function ShiftRight8(data: int): (r: int)
    requires IsInt32(data)
    ensures r * 0x100 <= data < r * 0x100 + 0x100
  {
    data / 0x100
  }

  /**
   * The text of the value with tag `tag` and data word `data`. It fails only
   * for a dimension whose unit index is past the end of `DIMEN`.
   */
  function FormatValue(tag: int, data: int, rt: Runtime): (r: Outcome<Units>)
    requires IsInt32(tag) && IsInt32(data)
    ensures r.Err? <==> tag == TYPE_DIMEN && LowByte(data) >= |DIMEN|
    ensures r.Err? ==> r.error == DimenUnitOutOfBounds
  {
    if tag == TYPE_ID_REF then Ok(Lit("@id/0x") + Hex8(data))
    else if tag == TYPE_ATTR_REF then Ok(Lit("?id/0x") + Hex8(data))
    else if tag == TYPE_FLOAT then Ok(rt.floatText(data))
    else if tag == TYPE_DIMEN then
      if LowByte(data) < |DIMEN| then Ok(Decimal(ShiftRight8(data)) + DIMEN[LowByte(data)])
      else Err(DimenUnitOutOfBounds)
    else if tag == TYPE_FRACTION then Ok(rt.fractionText(data))
    else if tag == TYPE_INT then Ok(Decimal(data))
    else if tag == TYPE_FLAGS then Ok(Lit("0x") + Hex8(data))
    else if tag == TYPE_BOOL then Ok(if data != 0 then Lit("true") else Lit("false"))
    else if tag == TYPE_COLOR || tag == TYPE_COLOR2 then Ok(Lit("#") + Hex8(data))
    else Ok(Hex8(tag) + Lit("/0x") + Hex8(data))
  }

  /** `s` is `%08X` of `x`: eight upper-case hexadecimal digits spelling its unsigned pattern. */
  ghost predicate SpellsHex8(s: Units, x: int)
    requires IsInt32(x)
  {
    |s| == 8 && IsUpperHex(s) && HexValue(s) == Unsigned32(x)
  }

  /** A boolean renders as "true" exactly when the data word is nonzero, else as "false". */
  lemma BoolValue(data: int, rt: Runtime)
    requires IsInt32(data)
    ensures FormatValue(TYPE_BOOL, data, rt) == Ok(Lit("true")) <==> data != 0
    ensures FormatValue(TYPE_BOOL, data, rt) == Ok(Lit("false")) <==> data == 0
  {
    assert Lit("true") != Lit("false") by {
      assert |Lit("true")| != |Lit("false")|;
    }
  }

  /** An integer renders as the canonical signed decimal numeral of the data word. */
  lemma IntValue(data: int, rt: Runtime)
    requires IsInt32(data)
    ensures FormatValue(TYPE_INT, data, rt).Ok?
    ensures IsNumeral(FormatValue(TYPE_INT, data, rt).value, data)
  {
    DecimalRoundTrip(data);
  }

  /**
   * A dimension renders as the canonical decimal numeral of `data >> 8`
   * followed by the unit its low byte selects, and fails for a unit index of
   * 6 or more.
   */
  lemma DimenValue(data: int, rt: Runtime)
    requires IsInt32(data)
    ensures LowByte(data) >= 6 ==> FormatValue(TYPE_DIMEN, data, rt) == Err(DimenUnitOutOfBounds)
    ensures LowByte(data) < 6 ==>
      exists n: Units, v: int :: FormatValue(TYPE_DIMEN, data, rt) == Ok(n + DIMEN[LowByte(data)])
        && IsNumeral(n, v) && v * 0x100 <= data < v * 0x100 + 0x100
  {
    if LowByte(data) < 6 {
      var n := Decimal(ShiftRight8(data));
      DecimalRoundTrip(ShiftRight8(data));
      assert FormatValue(TYPE_DIMEN, data, rt) == Ok(n + DIMEN[LowByte(data)]);
      assert IsNumeral(n, ShiftRight8(data));
    }
  }

  /**
   * References, flags and colours render as their prefix followed by `%08X`
   * of the data word.
   */
  lemma HexValues(data: int, rt: Runtime)
    requires IsInt32(data)
    ensures exists h: Units :: (
      && SpellsHex8(h, data)
      && FormatValue(TYPE_ID_REF, data, rt) == Ok(Lit("@id/0x") + h)
      && FormatValue(TYPE_ATTR_REF, data, rt) == Ok(Lit("?id/0x") + h)
      && FormatValue(TYPE_FLAGS, data, rt) == Ok(Lit("0x") + h)
      && FormatValue(TYPE_COLOR, data, rt) == Ok(Lit("#") + h)
      && FormatValue(TYPE_COLOR2, data, rt) == Ok(Lit("#") + h))
  {
    Hex8RoundTrip(data);
    var h := Hex8(data);
    assert SpellsHex8(h, data);
  }

  /** Any tag without a case of its own renders as `%08X/0x%08X` of the tag and the data word. */
  lemma FallbackValue(tag: int, data: int, rt: Runtime)
    requires IsInt32(tag) && IsInt32(data)
    requires !IsKnownTag(tag)
    ensures exists t: Units, h: Units :: (
      && SpellsHex8(t, tag) && SpellsHex8(h, data)
      && FormatValue(tag, data, rt) == Ok(t + Lit("/0x") + h))
  {
    Hex8RoundTrip(tag);
    Hex8RoundTrip(data);
    var t, h := Hex8(tag), Hex8(data);
    assert SpellsHex8(t, tag) && SpellsHex8(h, data);
  }

  /** Floats and fractions render as whatever text the runtime gives for the data word's bits. */
  lemma FloatValues(data: int, rt: Runtime)
    requires IsInt32(data)
    ensures FormatValue(TYPE_FLOAT, data, rt) == Ok(rt.floatText(data))
    ensures FormatValue(TYPE_FRACTION, data, rt) == Ok(rt.fractionText(data))
  {
  }

  /** The dimension data word 0x00012C01 renders as "300dp". */
  lemma DimenExample(rt: Runtime)
    ensures FormatValue(TYPE_DIMEN, 0x0001_2C01, rt) == Ok(Lit("300dp"))
  {
    assert LowByte(0x0001_2C01) == 1;
    assert ShiftRight8(0x0001_2C01) == 300;
    assert Decimal(300) == Lit("300");
    assert DIMEN[1] == Lit("dp");
    assert Lit("300") + Lit("dp") == Lit("300dp");
  }
}
