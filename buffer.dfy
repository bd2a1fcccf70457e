/**
 * The byte cursor: a little-endian `java.nio.ByteBuffer` over the document's
 * bytes, with its position. Reads past the limit raise `BufferUnderflow`,
 * seeks outside `[0, limit]` raise `IllegalPosition`.
 */
module Buffer {
  import opened Wrappers
  import opened Jvm

  newtype Byte = x: int | 0 <= x < 0x100

  /** The unsigned little-endian 32-bit value at `p`. */
  function U32At(bytes: seq<Byte>, p: int): (r: nat)
    requires 0 <= p && p + 4 <= |bytes|
    ensures r < TWO_32
  {
    bytes[p] as int + 0x100 * bytes[p + 1] as int
      + 0x1_0000 * bytes[p + 2] as int + 0x100_0000 * bytes[p + 3] as int
  }

  /** `getInt()` at `p`: the little-endian 32-bit value as a Java `int`. */
  function I32At(bytes: seq<Byte>, p: int): (r: int)
    requires 0 <= p && p + 4 <= |bytes|
    ensures IsInt32(r)
  {
    Signed32(U32At(bytes, p))
  }

  /** `getShort()` at `p`: the little-endian 16-bit value as a Java `short`. */
  function I16At(bytes: seq<Byte>, p: int): (r: int)
    requires 0 <= p && p + 2 <= |bytes|
    ensures -TWO_15 <= r < TWO_15
  {
    Signed16(bytes[p] as int + 0x100 * bytes[p + 1] as int)
  }

  /** The `n` little-endian `int`s starting at `q`. */
  function Int32Table(bytes: seq<Byte>, q: int, n: nat): (r: seq<int>)
    requires 0 <= q && q + 4 * n <= |bytes|
    ensures |r| == n
    ensures forall k | 0 <= k < n :: r[k] == I32At(bytes, q + 4 * k)
  {
    seq(n, k requires 0 <= k < n => I32At(bytes, q + 4 * k))
  }

  /** `new String(b, UTF_16LE)` without decoding: the little-endian code units of `b`. */
  function Utf16Units(b: seq<Byte>): (r: Units)
    requires |b| % 2 == 0
    ensures |r| == |b| / 2
    ensures forall k | 0 <= k < |r| :: r[k] as int == b[2 * k] as int + 0x100 * b[2 * k + 1] as int
  {
    seq(|b| / 2, k requires 0 <= k < |b| / 2 => (b[2 * k] as int + 0x100 * b[2 * k + 1] as int) as CodeUnit)
  }

  /** The four little-endian bytes of a Java `int`: what `putInt` would write. */
  function Le32(x: int): (r: seq<Byte>)
    requires IsInt32(x)
    ensures |r| == 4
  {
    var u := Unsigned32(x);
    [(u % 0x100) as Byte, (u / 0x100 % 0x100) as Byte,
     (u / 0x1_0000 % 0x100) as Byte, (u / 0x100_0000) as Byte]
  }

  /** The two little-endian bytes of a 16-bit unsigned value. */
  function Le16(u: nat): (r: seq<Byte>)
    requires u < TWO_16
    ensures |r| == 2
  {
    [(u % 0x100) as Byte, (u / 0x100) as Byte]
  }

  /** The little-endian bytes of a sequence of code units, two per unit. */
  function Utf16Bytes(s: Units): (r: seq<Byte>)
    ensures |r| == 2 * |s|
  {
    if s == [] then [] else Le16(s[0] as nat) + Utf16Bytes(s[1..])
  }

  /** A value below 2^32 is the sum of its four bytes, low byte first. */
  lemma ByteDigits(u: nat)
    requires u < TWO_32
    ensures u == u % 0x100 + 0x100 * (u / 0x100 % 0x100)
      + 0x1_0000 * (u / 0x1_0000 % 0x100) + 0x100_0000 * (u / 0x100_0000)
  {
    var q1 := u / 0x100;
    var q2 := q1 / 0x100;
    var q3 := q2 / 0x100;
    assert u == u % 0x100 + 0x100 * q1;
    assert q1 == q1 % 0x100 + 0x100 * q2;
    assert q2 == q2 % 0x100 + 0x100 * q3;
    assert q2 == u / 0x1_0000;
    assert q3 == u / 0x100_0000;
  }

  /** Reading an `int` back from where it was written gives the same `int`. */
  lemma I32RoundTrip(before: seq<Byte>, x: int, after: seq<Byte>)
    requires IsInt32(x)
    ensures I32At(before + Le32(x) + after, |before|) == x
  {
    var bytes := before + Le32(x) + after;
    var p := |before|;
    var u := Unsigned32(x);
    assert bytes[p..p + 4] == Le32(x);
    ByteDigits(u);
    assert U32At(bytes, p) == u;
  }

  /** Reading a `short` back from two bytes written from a non-negative value below 2^15 gives the value. */
  lemma I16RoundTrip(before: seq<Byte>, u: nat, after: seq<Byte>)
    requires u < TWO_15
    ensures I16At(before + Le16(u) + after, |before|) == u
  {
    var bytes := before + Le16(u) + after;
    var p := |before|;
    assert bytes[p] == (u % 0x100) as Byte && bytes[p + 1] == (u / 0x100) as Byte;
  }

  /** Decoding the bytes of a sequence of code units gives the same units. */
  lemma {:induction false} Utf16RoundTrip(s: Units)
    ensures Utf16Units(Utf16Bytes(s)) == s
  {
    if s != [] {
      Utf16RoundTrip(s[1..]);
      var b := Utf16Bytes(s);
      assert b[2..] == Utf16Bytes(s[1..]);
      forall k | 0 <= k < |s|
        ensures Utf16Units(b)[k] == s[k]
      {
        if k > 0 {
          assert b[2 * k] == b[2..][2 * (k - 1)] && b[2 * k + 1] == b[2..][2 * (k - 1) + 1];
          assert Utf16Units(b[2..])[k - 1] == s[1..][k - 1];
        }
      }
    }
  }

  /** The Java `ByteBuffer` the decoder walks: fixed contents and a moving position. */
  class ByteCursor {
    const bytes: seq<Byte>
    var pos: int

    ghost predicate Valid()
      reads this
    {
      0 <= pos <= |bytes| < TWO_31
    }

    constructor (contents: seq<Byte>)
      requires |contents| < TWO_31
      ensures Valid() && bytes == contents && pos == 0
    {
      bytes := contents;
      pos := 0;
    }

    /** `hasRemaining()`. */
    predicate HasRemaining()
      reads this
    {
      pos < |bytes|
    }

    /** `getInt()`: four bytes at the position, which then moves past them. */
    method GetInt() returns (r: Outcome<int>)
      requires Valid()
      modifies this`pos
      ensures Valid()
      ensures old(pos) + 4 <= |bytes| ==> r == Ok(I32At(bytes, old(pos))) && pos == old(pos) + 4
      ensures old(pos) + 4 > |bytes| ==> r == Err(BufferUnderflow) && pos == old(pos)
    {
      if pos + 4 > |bytes| {
        return Err(BufferUnderflow);
      }
      r := Ok(I32At(bytes, pos));
      pos := pos + 4;
    }

    /** `n` consecutive `getInt()` calls: the `int`s in order, or an underflow at the first that does not fit. */
    method GetInts(n: nat) returns (r: Outcome<seq<int>>)
      requires Valid()
      modifies this`pos
      ensures Valid()
      ensures old(pos) + 4 * n <= |bytes| ==> r == Ok(Int32Table(bytes, old(pos), n)) && pos == old(pos) + 4 * n
      ensures old(pos) + 4 * n > |bytes| ==> r == Err(BufferUnderflow)
    {
      var values := [];
      for i := 0 to n
        invariant Valid() && pos == old(pos) + 4 * i && |values| == i
        invariant forall k | 0 <= k < i :: values[k] == I32At(bytes, old(pos) + 4 * k)
      {
        var x :- GetInt();
        values := values + [x];
      }
      assert values == Int32Table(bytes, old(pos), n);
      r := Ok(values);
    }

    /** `getShort()`: two bytes at the position, which then moves past them. */
    method GetShort() returns (r: Outcome<int>)
      requires Valid()
      modifies this`pos
      ensures Valid()
      ensures old(pos) + 2 <= |bytes| ==> r == Ok(I16At(bytes, old(pos))) && pos == old(pos) + 2
      ensures old(pos) + 2 > |bytes| ==> r == Err(BufferUnderflow) && pos == old(pos)
    {
      if pos + 2 > |bytes| {
        return Err(BufferUnderflow);
      }
      r := Ok(I16At(bytes, pos));
      pos := pos + 2;
    }

    /** `get(new byte[n])`: the next `n` bytes, all or nothing. */
    method GetBytes(n: nat) returns (r: Outcome<seq<Byte>>)
      requires Valid()
      modifies this`pos
      ensures Valid()
      ensures old(pos) + n <= |bytes| ==> r == Ok(bytes[old(pos)..old(pos) + n]) && pos == old(pos) + n
      ensures old(pos) + n > |bytes| ==> r == Err(BufferUnderflow) && pos == old(pos)
    {
      if pos + n > |bytes| {
        return Err(BufferUnderflow);
      }
      r := Ok(bytes[pos..pos + n]);
      pos := pos + n;
    }

    /** `position(p)`: an absolute seek, refused outside `[0, limit]`. */
    method SetPosition(p: int) returns (r: Outcome<()>)
      requires Valid()
      modifies this`pos
      ensures Valid()
      ensures 0 <= p <= |bytes| ==> r == Ok(()) && pos == p
      ensures !(0 <= p <= |bytes|) ==> r == Err(IllegalPosition) && pos == old(pos)
    {
      if p < 0 || p > |bytes| {
        return Err(IllegalPosition);
      }
      pos := p;
      r := Ok(());
    }

    /** `mark(); getInt(); reset()`: the next `int`, leaving the position where it was. */
    method PeekInt() returns (r: Outcome<int>)
      requires Valid()
      modifies this`pos
      ensures Valid() && pos == old(pos)
      ensures pos + 4 <= |bytes| ==> r == Ok(I32At(bytes, pos))
      ensures pos + 4 > |bytes| ==> r == Err(BufferUnderflow)
    {
      var mark := pos;
      r := GetInt();
      pos := mark;
    }
  }
}
