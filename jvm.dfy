/**
 * What the decoder takes from the Java platform: the exceptions it can raise,
 * 32-bit `int` arithmetic, UTF-16 strings that may be null, and the pieces of
 * the runtime the model treats as parameters.
 */
module Jvm {
  import opened Wrappers

  /** The ways a decode can end abnormally. Each one aborts the whole parse. */
  datatype Failure =
    | BufferUnderflow          // BufferUnderflowException: a get past the buffer's limit
    | IllegalPosition          // IllegalArgumentException: position(p) outside [0, limit]
    | NegativeArraySize        // NegativeArraySizeException: negative string count or string length
    | PoolIndexOutOfBounds     // IndexOutOfBoundsException: a string index at or past the pool's end
    | NullText                 // NullPointerException: a text chunk whose string index is negative
    | DimenUnitOutOfBounds     // ArrayIndexOutOfBoundsException: a dimension unit index of 6 or more
    | UnknownChunkType(tag: int) // AssertionError from the dispatcher's `assert false`
    | Cycle                    // the dispatch loop came back to a position: the Java loop never ends

  type Outcome<T> = Result<T, Failure>

  const TWO_15: int := 0x8000
  const TWO_16: int := 0x1_0000
  const TWO_31: int := 0x8000_0000
  const TWO_32: int := 0x1_0000_0000

  /** The range of a Java `int`. */
  predicate IsInt32(x: int) {
    -TWO_31 <= x < TWO_31
  }

  /** Java `int` addition: the exact sum reduced to 32-bit two's complement. */
  function Wrap32(x: int): (r: int)
    ensures IsInt32(r)
    ensures IsInt32(x) ==> r == x
    decreases if x < 0 then -2 * x else 2 * x + 1
  {
    if x < -TWO_31 then Wrap32(x + TWO_32)
    else if x >= TWO_31 then Wrap32(x - TWO_32)
    else x
  }

  /** The wrapped sum differs from the exact one by a multiple of 2^32. */
  lemma {:induction false} Wrap32Congruent(x: int)
    ensures (Wrap32(x) - x) % TWO_32 == 0
    decreases if x < 0 then -2 * x else 2 * x + 1
  {
    if x < -TWO_31 {
      Wrap32Congruent(x + TWO_32);
    } else if x >= TWO_31 {
      Wrap32Congruent(x - TWO_32);
    }
  }

  /** The bit pattern of a Java `int` read as unsigned, as `%X` formats it. */
  function Unsigned32(x: int): (r: nat)
    requires IsInt32(x)
    ensures r < TWO_32
    ensures Signed32(r) == x
  {
    if x < 0 then x + TWO_32 else x
  }

  /** A 32-bit pattern read as a Java `int` (two's complement). */
  function Signed32(u: nat): (r: int)
    requires u < TWO_32
    ensures IsInt32(r)
  {
    if u < TWO_31 then u else u - TWO_32
  }

  /** A 16-bit pattern read as a Java `short`. */
  function Signed16(u: nat): (r: int)
    requires u < TWO_16
    ensures -TWO_15 <= r < TWO_15
  {
    if u < TWO_15 then u else u - TWO_16
  }

  /** A UTF-16 code unit: the element of a Java `String`. */
  newtype CodeUnit = x: int | 0 <= x < 0x1_0000

  type Units = seq<CodeUnit>

  /** A Java `String` reference: `None` is null. */
  type JString = Option<Units>

  /** The code units of a literal of the source, all of whose characters are below U+10000. */
  function Lit(s: string): (r: Units)
    requires forall i | 0 <= i < |s| :: s[i] as int < 0x1_0000
    ensures |r| == |s|
  {
    seq(|s|, i requires 0 <= i < |s| => s[i] as int as CodeUnit)
  }

  const NULL_TEXT: Units := [0x6E, 0x75, 0x6C, 0x6C]

  /** String concatenation's rendering of a reference: null becomes the text "null". */
  function Show(s: JString): (r: Units)
    ensures s.Some? ==> r == s.value
    ensures s.None? ==> r == NULL_TEXT
  {
    if s.None? then NULL_TEXT else s.value
  }

  /**
   * What the runtime supplies and the model does not interpret: the text
   * `Float.toString` and `String.format("%.2f%%", ...)` give for the float
   * with a given bit pattern, and whether `assert` statements are enabled.
   */
  datatype Runtime = Runtime(
    floatText: int -> Units,
    fractionText: int -> Units,
    assertionsEnabled: bool)
}
