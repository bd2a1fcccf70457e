/**
 * The decoder as functions of the bytes: one function per chunk decoder,
 * each taking the chunk's start position and the reader's state to the
 * state and position after the chunk, and `Decode`, the dispatch loop.
 * The imperative decoder in module `Reader` is proved to compute exactly these.
 */
module Chunks {
  import opened Wrappers
  import opened Jvm
  import opened Buffer
  import opened Values
  import opened Names

  const CHUNK_STRING: int := 0x001C_0001
  const CHUNK_RESOURCE_ID: int := 0x0008_0180
  const CHUNK_START_NAMESPACE: int := 0x0010_0100
  const CHUNK_END_NAMESPACE: int := 0x0010_0101
  const CHUNK_START_TAG: int := 0x0010_0102
  const CHUNK_END_TAG: int := 0x0010_0103
  const CHUNK_TEXT: int := 0x0010_0104

  /** One entry of the SAX `Attributes` list (its type is always "CDATA"). */
  datatype Attribute = Attribute(uri: Units, localName: JString, qName: JString, value: JString)

  /** The calls the decoder makes on its `ContentHandler`, in order. */
  datatype Event =
    | StartPrefix(prefix: JString, namespace: JString)
    | EndPrefix(prefix: JString)
    | StartElement(uri: Units, localName: JString, qName: JString, attributes: seq<Attribute>)
    | EndElement(uri: Units, localName: JString, qName: JString)
    | Characters(text: Units)

  /** The reader's mutable state: string pool, namespace map, and the events handed out so far. */
  datatype ReaderState = ReaderState(pool: seq<Units>, mapping: PrefixMap, events: seq<Event>)

  /** The state and the buffer position after a chunk. */
  datatype Step = Step(state: ReaderState, pos: int)

  /** The attributes of a start tag decoded so far and the position after them. */
  datatype AttributeRun = AttributeRun(attributes: seq<Attribute>, end: int)

  /** The pool and the event list only ever grow at their ends. */
  predicate Extends(a: ReaderState, b: ReaderState) {
    a.pool <= b.pool && a.events <= b.events
  }

  // ---------------------------------------------------------------------
  // String chunk

  /**
   * `parseString(offset)`: seek to `offset`, read a signed 16-bit length L,
   * then L code units, then the 2-byte terminator (read, not checked).
   */
  function StringAt(bytes: seq<Byte>, offset: int): (r: Outcome<Units>)
    ensures r.Ok? ==> 0 <= offset && offset + 4 + 2 * |r.value| <= |bytes|
    ensures r.Err? ==> r.error != Cycle
  {
    if offset < 0 || offset > |bytes| then Err(IllegalPosition)
    else if offset + 2 > |bytes| then Err(BufferUnderflow)
    else
      var length := I16At(bytes, offset);
      if length < 0 then Err(NegativeArraySize)
      else if offset + 2 + 2 * length > |bytes| then Err(BufferUnderflow)
      else if offset + 4 + 2 * length > |bytes| then Err(BufferUnderflow)
      else Ok(Utf16Units(bytes[offset + 2..offset + 2 + 2 * length]))
  }

  /**
   * A string read fails only as `parseString` can: a seek outside the buffer,
   * a read past its limit, or a negative length for the `byte[]`.
   */
  lemma StringAtErrors(bytes: seq<Byte>, offset: int)
    ensures !(0 <= offset <= |bytes|) ==> StringAt(bytes, offset) == Err(IllegalPosition)
    ensures 0 <= offset && offset + 2 <= |bytes| && I16At(bytes, offset) < 0 ==>
      StringAt(bytes, offset) == Err(NegativeArraySize)
    ensures StringAt(bytes, offset).Err? ==>
      StringAt(bytes, offset).error in {IllegalPosition, BufferUnderflow, NegativeArraySize}
  {
  }

  /**
   * The encoding `StringAt` reads: a 16-bit length, the code units, then a
   * two-byte terminator whose value is never looked at.
   */
  function EncodedString(s: Units, terminator: seq<Byte>): (r: seq<Byte>)
    requires |s| < TWO_15 && |terminator| == 2
    ensures |r| == 4 + 2 * |s|
  {
    Le16(|s|) + Utf16Bytes(s) + terminator
  }

  /** The middle part of a concatenation, sliced back out. */
  lemma SliceMiddle<T>(a: seq<T>, b: seq<T>, c: seq<T>)
    ensures (a + b + c)[|a|..|a| + |b|] == b
  {
  }

  /**
   * `StringAt` reads back exactly the string `EncodedString` wrote, wherever
   * it sits and whatever its terminator bytes are.
   */
  lemma StringRoundTrip(before: seq<Byte>, s: Units, terminator: seq<Byte>, after: seq<Byte>)
    requires |s| < TWO_15 && |terminator| == 2
    ensures StringAt(before + EncodedString(s, terminator) + after, |before|) == Ok(s)
  {
    var bytes := before + EncodedString(s, terminator) + after;
    var head := before + Le16(|s|);
    var tail := terminator + after;
    assert bytes == before + Le16(|s|) + (Utf16Bytes(s) + tail);
    I16RoundTrip(before, |s|, Utf16Bytes(s) + tail);
    assert bytes == head + Utf16Bytes(s) + tail;
    SliceMiddle(head, Utf16Bytes(s), tail);
    Utf16RoundTrip(s);
  }

  /**
   * The string loop of `parseStringChunk`: the string at `base + offsets[k]`
   * (an `int` sum) for each k in table order, appended to `pool`.
   */
  function AppendStrings(bytes: seq<Byte>, base: int, offsets: seq<int>, pool: seq<Units>): (r: Outcome<seq<Units>>)
    ensures r.Ok? ==> |r.value| == |pool| + |offsets| && r.value[..|pool|] == pool
    ensures r.Err? ==> r.error != Cycle
    decreases |offsets|
  {
    if offsets == [] then Ok(pool)
    else
      var s :- StringAt(bytes, Wrap32(base + offsets[0]));
      AppendStrings(bytes, base, offsets[1..], pool + [s])
  }

  /** The string loop appends, for each table entry k in order, the string at `base + offsets[k]`. */
  lemma {:induction false} AppendStringsReads(bytes: seq<Byte>, base: int, offsets: seq<int>, pool: seq<Units>)
    requires AppendStrings(bytes, base, offsets, pool).Ok?
    ensures var r := AppendStrings(bytes, base, offsets, pool).value;
      forall k | 0 <= k < |offsets| :: StringAt(bytes, Wrap32(base + offsets[k])) == Ok(r[|pool| + k])
    decreases |offsets|
  {
    if offsets != [] {
      var s := StringAt(bytes, Wrap32(base + offsets[0])).value;
      var r := AppendStrings(bytes, base, offsets[1..], pool + [s]).value;
      AppendStringsReads(bytes, base, offsets[1..], pool + [s]);
      assert r[..|pool| + 1] == pool + [s];
      forall k | 0 <= k < |offsets|
        ensures StringAt(bytes, Wrap32(base + offsets[k])) == Ok(r[|pool| + k])
      {
        if k == 0 {
          assert r[|pool|] == r[..|pool| + 1][|pool|];
        } else {
          assert offsets[k] == offsets[1..][k - 1];
          assert |pool + [s]| + (k - 1) == |pool| + k;
        }
      }
    }
  }

  /**
   * The middle of `parseStringChunk`, after its 28-byte header: allocate and
   * read the offset table, then append the strings to `pool`.
   */
  function ChunkStrings(bytes: seq<Byte>, p: int, pool: seq<Units>): (r: Outcome<seq<Units>>)
    requires 0 <= p && p + 28 <= |bytes|
    ensures r.Ok? ==> pool <= r.value
  {
    var stringCount := I32At(bytes, p + 8);
    if stringCount < 0 then Err(NegativeArraySize)
    else if p + 28 + 4 * stringCount > |bytes| then Err(BufferUnderflow)
    else AppendStrings(bytes, Wrap32(p + I32At(bytes, p + 20)), Int32Table(bytes, p + 28, stringCount), pool)
  }

  /**
   * `parseStringChunk`: read the header and the offset table, append each
   * string to the pool, then seek to the chunk's start plus its declared size.
   */
  function StringChunk(bytes: seq<Byte>, p: int, st: ReaderState): (r: Outcome<Step>)
    requires 0 <= p <= |bytes|
    ensures r.Ok? ==> p + 28 <= |bytes| && r.value.pos == Wrap32(p + I32At(bytes, p + 4))
    ensures r.Ok? ==> 0 <= r.value.pos <= |bytes| && Extends(st, r.value.state)
    ensures r.Ok? ==> r.value.state.mapping == st.mapping && r.value.state.events == st.events
  {
    if p + 28 > |bytes| then Err(BufferUnderflow)
    else
      var pool :- ChunkStrings(bytes, p, st.pool);
      var end := Wrap32(p + I32At(bytes, p + 4));
      if 0 <= end <= |bytes| then Ok(Step(st.(pool := pool), end))
      else Err(IllegalPosition)
  }

  /**
   * The table loop reads exactly `stringCount` strings, in table order,
   * string k at the chunk's start plus the pool offset plus offset k.
   */
  lemma ChunkStringsAppends(bytes: seq<Byte>, p: int, pool: seq<Units>)
    requires 0 <= p && p + 28 <= |bytes|
    requires ChunkStrings(bytes, p, pool).Ok?
    ensures var n := I32At(bytes, p + 8);
      var pool' := ChunkStrings(bytes, p, pool).value;
      && 0 <= n && p + 28 + 4 * n <= |bytes|
      && |pool'| == |pool| + n
      && forall k | 0 <= k < n ::
           StringAt(bytes, Wrap32(Wrap32(p + I32At(bytes, p + 20)) + I32At(bytes, p + 28 + 4 * k)))
             == Ok(pool'[|pool| + k])
  {
    var n := I32At(bytes, p + 8);
    var offsets := Int32Table(bytes, p + 28, n);
    var base := Wrap32(p + I32At(bytes, p + 20));
    var r := AppendStrings(bytes, base, offsets, pool);
    assert ChunkStrings(bytes, p, pool) == r;
    AppendStringsReads(bytes, base, offsets, pool);
    forall k | 0 <= k < n
      ensures StringAt(bytes, Wrap32(base + I32At(bytes, p + 28 + 4 * k))) == Ok(r.value[|pool| + k])
    {
      assert offsets[k] == I32At(bytes, p + 28 + 4 * k);
    }
  }

  /**
   * A string chunk appends exactly `stringCount` strings, each one `GetString`
   * finds at its new index; entries already in the pool keep their index and text.
   */
  lemma StringChunkAppends(bytes: seq<Byte>, p: int, st: ReaderState)
    requires 0 <= p <= |bytes|
    requires StringChunk(bytes, p, st).Ok?
    ensures p + 28 <= |bytes|
    ensures var n := I32At(bytes, p + 8);
      var pool := StringChunk(bytes, p, st).value.state.pool;
      && 0 <= n && p + 28 + 4 * n <= |bytes|
      && |pool| == |st.pool| + n
      && (forall j | j < |st.pool| :: GetString(pool, j) == GetString(st.pool, j))
      && forall k | 0 <= k < n ::
           StringAt(bytes, Wrap32(Wrap32(p + I32At(bytes, p + 20)) + I32At(bytes, p + 28 + 4 * k)))
             == Ok(pool[|st.pool| + k])
           && GetString(pool, |st.pool| + k) == Ok(Some(pool[|st.pool| + k]))
  {
    var pool := ChunkStrings(bytes, p, st.pool).value;
    assert StringChunk(bytes, p, st).value.state.pool == pool;
    ChunkStringsAppends(bytes, p, st.pool);
    GetStringExtends(st.pool, pool);
  }

  /** The string loop fails only as `parseString` does. */
  lemma {:induction false} AppendStringsErrors(bytes: seq<Byte>, base: int, offsets: seq<int>, pool: seq<Units>)
    ensures AppendStrings(bytes, base, offsets, pool).Err? ==>
      AppendStrings(bytes, base, offsets, pool).error in {IllegalPosition, BufferUnderflow, NegativeArraySize}
    decreases |offsets|
  {
    if offsets != [] {
      StringAtErrors(bytes, Wrap32(base + offsets[0]));
      var s := StringAt(bytes, Wrap32(base + offsets[0]));
      if s.Ok? {
        AppendStringsErrors(bytes, base, offsets[1..], pool + [s.value]);
      }
    }
  }

  /**
   * A string chunk decodes exactly when its header fits, its count is not
   * negative, its offset table fits, every string decodes and its declared
   * end lies inside the buffer. A short header or table underflows, a
   * negative count is a negative array size, and an end outside the buffer
   * is an illegal position.
   */
  lemma StringChunkDecodes(bytes: seq<Byte>, p: int, st: ReaderState)
    requires 0 <= p <= |bytes|
    ensures p + 28 > |bytes| ==> StringChunk(bytes, p, st) == Err(BufferUnderflow)
    ensures p + 28 <= |bytes| ==>
      var n := I32At(bytes, p + 8);
      var end := Wrap32(p + I32At(bytes, p + 4));
      StringChunk(bytes, p, st).Ok? <==>
        && 0 <= n && p + 28 + 4 * n <= |bytes|
        && AppendStrings(bytes, Wrap32(p + I32At(bytes, p + 20)), Int32Table(bytes, p + 28, n), st.pool).Ok?
        && 0 <= end <= |bytes|
    ensures p + 28 <= |bytes| && I32At(bytes, p + 8) < 0 ==> StringChunk(bytes, p, st) == Err(NegativeArraySize)
    ensures p + 28 <= |bytes| && 0 <= I32At(bytes, p + 8) && p + 28 + 4 * I32At(bytes, p + 8) > |bytes| ==>
      StringChunk(bytes, p, st) == Err(BufferUnderflow)
    ensures p + 28 <= |bytes| && ChunkStrings(bytes, p, st.pool).Ok? ==>
      0 <= Wrap32(p + I32At(bytes, p + 4)) <= |bytes| || StringChunk(bytes, p, st) == Err(IllegalPosition)
    ensures StringChunk(bytes, p, st).Err? ==>
      StringChunk(bytes, p, st).error in {BufferUnderflow, NegativeArraySize, IllegalPosition}
  {
    if p + 28 <= |bytes| {
      var n := I32At(bytes, p + 8);
      if 0 <= n && p + 28 + 4 * n <= |bytes| {
        AppendStringsErrors(bytes, Wrap32(p + I32At(bytes, p + 20)), Int32Table(bytes, p + 28, n), st.pool);
      }
    }
  }

  // ---------------------------------------------------------------------
  // Resource-id chunk

  /** `parseResourceIdChunk`: read type and size, then seek past the chunk unread. */
  function ResourceIdChunk(bytes: seq<Byte>, p: int, st: ReaderState): (r: Outcome<Step>)
    requires 0 <= p <= |bytes|
    ensures r.Ok? ==> p + 8 <= |bytes| && r.value.pos == Wrap32(p + I32At(bytes, p + 4))
    ensures r.Ok? ==> 0 <= r.value.pos <= |bytes| && r.value.state == st
  {
    if p + 8 > |bytes| then Err(BufferUnderflow)
    else
      var end := Wrap32(p + I32At(bytes, p + 4));
      if 0 <= end <= |bytes| then Ok(Step(st, end)) else Err(IllegalPosition)
  }

  /**
   * A resource-id chunk decodes exactly when its type and size fit and its
   * declared end lies inside the buffer; otherwise it underflows or seeks to
   * an illegal position.
   */
  lemma ResourceIdChunkDecodes(bytes: seq<Byte>, p: int, st: ReaderState)
    requires 0 <= p <= |bytes|
    ensures ResourceIdChunk(bytes, p, st).Ok? <==>
      p + 8 <= |bytes| && 0 <= Wrap32(p + I32At(bytes, p + 4)) <= |bytes|
    ensures p + 8 > |bytes| ==> ResourceIdChunk(bytes, p, st) == Err(BufferUnderflow)
    ensures p + 8 <= |bytes| && !(0 <= Wrap32(p + I32At(bytes, p + 4)) <= |bytes|) ==>
      ResourceIdChunk(bytes, p, st) == Err(IllegalPosition)
  {
  }

  // ---------------------------------------------------------------------
  // Namespace chunks

  /** `parseStartNamespaceChunk`: bind the URI to the prefix and report the binding. */
  function StartNamespaceChunk(bytes: seq<Byte>, p: int, st: ReaderState): (r: Outcome<Step>)
    requires 0 <= p <= |bytes|
    ensures r.Ok? <==> (p + 24 <= |bytes|
      && I32At(bytes, p + 16) < |st.pool| && I32At(bytes, p + 20) < |st.pool|)
    ensures r.Ok? ==>
      var prefix := GetString(st.pool, I32At(bytes, p + 16)).value;
      var uri := GetString(st.pool, I32At(bytes, p + 20)).value;
      && r.value.pos == p + 24
      && r.value.state.pool == st.pool
      && r.value.state.mapping == st.mapping[uri := prefix]
      && r.value.state.events == st.events + [StartPrefix(prefix, uri)]
  {
    if p + 24 > |bytes| then Err(BufferUnderflow)
    else
      var prefixIndex := I32At(bytes, p + 16);
      var uriIndex := I32At(bytes, p + 20);
      var uri :- GetString(st.pool, uriIndex);
      var prefix :- GetString(st.pool, prefixIndex);
      Ok(Step(st.(mapping := st.mapping[uri := prefix],
                  events := st.events + [StartPrefix(prefix, uri)]), p + 24))
  }

  /** `parseEndNamespaceChunk`: report the end of the prefix's scope; the map keeps the binding. */
  function EndNamespaceChunk(bytes: seq<Byte>, p: int, st: ReaderState): (r: Outcome<Step>)
    requires 0 <= p <= |bytes|
    ensures r.Ok? <==> p + 24 <= |bytes| && I32At(bytes, p + 16) < |st.pool|
    ensures r.Ok? ==>
      && r.value.pos == p + 24
      && r.value.state.pool == st.pool
      && r.value.state.mapping == st.mapping
      && r.value.state.events == st.events + [EndPrefix(GetString(st.pool, I32At(bytes, p + 16)).value)]
  {
    if p + 24 > |bytes| then Err(BufferUnderflow)
    else
      var prefix :- GetString(st.pool, I32At(bytes, p + 16));
      Ok(Step(st.(events := st.events + [EndPrefix(prefix)]), p + 24))
  }

  /**
   * After a start-namespace chunk, every qualified name under that URI is
   * the chunk's prefix, a colon and the local name.
   */
  lemma StartNamespaceBindsPrefix(bytes: seq<Byte>, p: int, st: ReaderState, localName: JString)
    requires 0 <= p <= |bytes|
    requires StartNamespaceChunk(bytes, p, st).Ok?
    requires 0 <= I32At(bytes, p + 20) && st.pool[I32At(bytes, p + 20)] != []
    ensures var uri := st.pool[I32At(bytes, p + 20)];
      var prefix := GetString(st.pool, I32At(bytes, p + 16)).value;
      QName(StartNamespaceChunk(bytes, p, st).value.state.mapping, uri, localName)
        == Some(Show(prefix) + [COLON] + Show(localName))
  {
  }

  /** A namespace chunk pair leaves the binding the start made in place. */
  lemma EndNamespaceKeepsBinding(bytes: seq<Byte>, p: int, st: ReaderState, p': int)
    requires 0 <= p <= |bytes| && 0 <= p' <= |bytes|
    requires StartNamespaceChunk(bytes, p, st).Ok?
    requires EndNamespaceChunk(bytes, p', StartNamespaceChunk(bytes, p, st).value.state).Ok?
    ensures var uri := GetString(st.pool, I32At(bytes, p + 20)).value;
      var prefix := GetString(st.pool, I32At(bytes, p + 16)).value;
      var after := EndNamespaceChunk(bytes, p', StartNamespaceChunk(bytes, p, st).value.state).value.state;
      && uri in after.mapping && after.mapping[uri] == prefix
      && after.events == st.events + [StartPrefix(prefix, uri), EndPrefix(GetString(st.pool, I32At(bytes, p' + 16)).value)]
  {
  }

  // ---------------------------------------------------------------------
  // Tag chunks

  /** The value of an attribute: a pool string for the string type, the formatter's text otherwise. */
  function AttributeValue(pool: seq<Units>, stringIndex: int, tag: int, data: int, rt: Runtime): (r: Outcome<JString>)
    requires IsInt32(tag) && IsInt32(data)
    ensures tag == TYPE_STRING ==> r == GetString(pool, stringIndex)
    ensures tag != TYPE_STRING ==> match FormatValue(tag, data, rt)
      case Ok(text) => r == Ok(Some(text))
      case Err(e) => r == Err(e)
  {
    if tag == TYPE_STRING then GetString(pool, stringIndex)
    else
      var text :- FormatValue(tag, data, rt);
      Ok(Some(text))
  }

  /**
   * `parseAttribute`: the 20-byte attribute record at `q`, whose words are
   * the namespace URI index, the name index, the string-value index, the
   * value type and the data word, in that order.
   */
  function AttributeAt(bytes: seq<Byte>, q: int, pool: seq<Units>, mapping: PrefixMap, rt: Runtime): Outcome<Attribute>
    requires 0 <= q && q + 20 <= |bytes|
  {
    var value :- AttributeValue(pool, I32At(bytes, q + 8), I32At(bytes, q + 12), I32At(bytes, q + 16), rt);
    var uri :- GetUri(pool, I32At(bytes, q));
    var localName :- GetString(pool, I32At(bytes, q + 4));
    Ok(Attribute(uri, localName, QName(mapping, uri, localName), value))
  }

  /**
   * A record decodes exactly when its value does and its URI and name indices
   * lie below the pool's size; otherwise the failure is the pool's or the
   * dimension table's index error. A record that decodes gives the attribute whose URI (empty
   * for none) and local name come from its first two words, whose qualified
   * name joins them through the prefix map, and whose value comes from the
   * other three.
   */
  lemma AttributeAtFields(bytes: seq<Byte>, q: int, pool: seq<Units>, mapping: PrefixMap, rt: Runtime)
    requires 0 <= q && q + 20 <= |bytes|
    ensures var value := AttributeValue(pool, I32At(bytes, q + 8), I32At(bytes, q + 12), I32At(bytes, q + 16), rt);
      AttributeAt(bytes, q, pool, mapping, rt).Ok? <==> value.Ok? && I32At(bytes, q) < |pool| && I32At(bytes, q + 4) < |pool|
    ensures AttributeAt(bytes, q, pool, mapping, rt).Err? ==>
      AttributeAt(bytes, q, pool, mapping, rt).error in {PoolIndexOutOfBounds, DimenUnitOutOfBounds}
    ensures AttributeAt(bytes, q, pool, mapping, rt).Ok? ==>
      var uri := if I32At(bytes, q) < 0 then [] else pool[I32At(bytes, q)];
      var localName := if I32At(bytes, q + 4) < 0 then None else Some(pool[I32At(bytes, q + 4)]);
      var value := AttributeValue(pool, I32At(bytes, q + 8), I32At(bytes, q + 12), I32At(bytes, q + 16), rt).value;
      AttributeAt(bytes, q, pool, mapping, rt).value == Attribute(uri, localName, QName(mapping, uri, localName), value)
  {
  }

  /** The position of attribute record `i` of a start tag whose records begin at `base`. */
  function RecordPos(base: int, i: int): int {
    base + 20 * i
  }

  /**
   * The attribute loop of `parseStartTagChunk` from record `i` on, with the
   * first `i` attributes in `acc`; a count of zero or less reads none.
   */
  function AttributeList(bytes: seq<Byte>, base: int, count: int, i: nat, pool: seq<Units>, mapping: PrefixMap,
                         rt: Runtime, acc: seq<Attribute>): (r: Outcome<AttributeRun>)
    requires 0 <= base && RecordPos(base, i) <= |bytes|
    ensures r.Ok? ==> var n := if count < i then i else count;
      r.value.end == RecordPos(base, n) <= |bytes| && |r.value.attributes| == |acc| + n - i
    ensures r.Err? ==> r.error != Cycle
    decreases count - i
  {
    if i >= count then Ok(AttributeRun(acc, RecordPos(base, i)))
    else if RecordPos(base, i) + 20 > |bytes| then Err(BufferUnderflow)
    else
      var a :- AttributeAt(bytes, RecordPos(base, i), pool, mapping, rt);
      AttributeList(bytes, base, count, i + 1, pool, mapping, rt, acc + [a])
  }

  /** One round of the attribute loop: record `i` decodes and the rest follow it. */
  lemma AttributeListStep(bytes: seq<Byte>, base: int, count: int, i: nat, pool: seq<Units>,
                          mapping: PrefixMap, rt: Runtime, acc: seq<Attribute>)
    requires 0 <= base && RecordPos(base, i) <= |bytes| && i < count
    requires AttributeList(bytes, base, count, i, pool, mapping, rt, acc).Ok?
    ensures RecordPos(base, i) + 20 <= |bytes| && AttributeAt(bytes, RecordPos(base, i), pool, mapping, rt).Ok?
    ensures AttributeList(bytes, base, count, i, pool, mapping, rt, acc)
      == AttributeList(bytes, base, count, i + 1, pool, mapping, rt,
                       acc + [AttributeAt(bytes, RecordPos(base, i), pool, mapping, rt).value])
  {
  }

  /** A record that decodes is followed by the rest of the loop. */
  lemma AttributeListCons(bytes: seq<Byte>, base: int, count: int, i: nat, pool: seq<Units>,
                          mapping: PrefixMap, rt: Runtime, acc: seq<Attribute>)
    requires 0 <= base && RecordPos(base, i) + 20 <= |bytes| && i < count
    requires AttributeAt(bytes, RecordPos(base, i), pool, mapping, rt).Ok?
    ensures AttributeList(bytes, base, count, i, pool, mapping, rt, acc)
      == AttributeList(bytes, base, count, i + 1, pool, mapping, rt,
                       acc + [AttributeAt(bytes, RecordPos(base, i), pool, mapping, rt).value])
  {
  }

  /** The attribute loop fails only by underflow or by a record's index error. */
  lemma {:induction false} AttributeListErrors(bytes: seq<Byte>, base: int, count: int, i: nat, pool: seq<Units>,
                                               mapping: PrefixMap, rt: Runtime, acc: seq<Attribute>)
    requires 0 <= base && RecordPos(base, i) <= |bytes|
    ensures AttributeList(bytes, base, count, i, pool, mapping, rt, acc).Err? ==>
      AttributeList(bytes, base, count, i, pool, mapping, rt, acc).error
        in {BufferUnderflow, PoolIndexOutOfBounds, DimenUnitOutOfBounds}
    decreases count - i
  {
    if i < count && RecordPos(base, i) + 20 <= |bytes| {
      AttributeAtFields(bytes, RecordPos(base, i), pool, mapping, rt);
      var a := AttributeAt(bytes, RecordPos(base, i), pool, mapping, rt);
      if a.Ok? {
        AttributeListErrors(bytes, base, count, i + 1, pool, mapping, rt, acc + [a.value]);
      }
    }
  }

  /**
   * Attributes keep their encoded order: attribute k is record k, the one
   * 20 * k bytes after the first.
   */
  lemma {:induction false} AttributesInOrder(bytes: seq<Byte>, base: int, count: int, i: nat, pool: seq<Units>,
                                             mapping: PrefixMap, rt: Runtime, acc: seq<Attribute>)
    requires 0 <= base && RecordPos(base, i) <= |bytes| && |acc| == i
    requires AttributeList(bytes, base, count, i, pool, mapping, rt, acc).Ok?
    ensures var attrs := AttributeList(bytes, base, count, i, pool, mapping, rt, acc).value.attributes;
      && attrs[..i] == acc
      && forall k | i <= k < |attrs| ::
           RecordPos(base, k) + 20 <= |bytes| && AttributeAt(bytes, RecordPos(base, k), pool, mapping, rt) == Ok(attrs[k])
    decreases count - i
  {
    if i < count {
      AttributeListStep(bytes, base, count, i, pool, mapping, rt, acc);
      var a := AttributeAt(bytes, RecordPos(base, i), pool, mapping, rt).value;
      AttributesInOrder(bytes, base, count, i + 1, pool, mapping, rt, acc + [a]);
      var attrs := AttributeList(bytes, base, count, i + 1, pool, mapping, rt, acc + [a]).value.attributes;
      assert attrs[..i + 1] == acc + [a];
      assert attrs[..i] == attrs[..i + 1][..i];
      assert attrs[i] == a;
      forall k | i <= k < |attrs|
        ensures RecordPos(base, k) + 20 <= |bytes| && AttributeAt(bytes, RecordPos(base, k), pool, mapping, rt) == Ok(attrs[k])
      {
      }
    } else {
      assert AttributeList(bytes, base, count, i, pool, mapping, rt, acc) == Ok(AttributeRun(acc, RecordPos(base, i)));
    }
  }

  /** `parseStartTagChunk`: decode the attributes, then report the element with them. */
  function StartTagChunk(bytes: seq<Byte>, p: int, st: ReaderState, rt: Runtime): (r: Outcome<Step>)
    requires 0 <= p <= |bytes|
    ensures r.Ok? ==> p + 36 <= |bytes|
    ensures r.Ok? ==> var n := I32At(bytes, p + 28);
      r.value.pos == p + 36 + 20 * (if n < 0 then 0 else n)
    ensures r.Ok? ==> r.value.state.pool == st.pool && r.value.state.mapping == st.mapping
    ensures r.Ok? ==> exists e: Event :: e.StartElement? && r.value.state.events == st.events + [e]
  {
    if p + 36 > |bytes| then Err(BufferUnderflow)
    else StartTagBody(bytes, p, st, rt)
  }

  /** `parseStartTagChunk` after its 36-byte header: the attributes, then the report. */
  function StartTagBody(bytes: seq<Byte>, p: int, st: ReaderState, rt: Runtime): (r: Outcome<Step>)
    requires 0 <= p && p + 36 <= |bytes|
  {
    var namespaceUri := I32At(bytes, p + 16);
    var name := I32At(bytes, p + 20);
    var attributeCount := I32At(bytes, p + 28);
    var run :- AttributeList(bytes, p + 36, attributeCount, 0, st.pool, st.mapping, rt, []);
    var uri :- GetUri(st.pool, namespaceUri);
    var localName :- GetString(st.pool, name);
    var e := StartElement(uri, localName, QName(st.mapping, uri, localName), run.attributes);
    Ok(Step(st.(events := st.events + [e]), run.end))
  }

  /**
   * The element a start tag reports: its URI (empty for none), local name
   * and qualified name from the pool and the map as they stand, and one
   * attribute per record, in record order.
   */
  lemma StartTagReports(bytes: seq<Byte>, p: int, st: ReaderState, rt: Runtime)
    requires 0 <= p <= |bytes|
    requires StartTagChunk(bytes, p, st, rt).Ok?
    ensures p + 36 <= |bytes|
    ensures var events := StartTagChunk(bytes, p, st, rt).value.state.events;
      var n := I32At(bytes, p + 28);
      var uri := GetUri(st.pool, I32At(bytes, p + 16)).value;
      var localName := GetString(st.pool, I32At(bytes, p + 20)).value;
      && |events| == |st.events| + 1 && events[..|st.events|] == st.events
      && var e := events[|st.events|];
      && e.StartElement? && e.uri == uri && e.localName == localName
      && e.qName == QName(st.mapping, uri, localName)
      && |e.attributes| == (if n < 0 then 0 else n)
      && forall k | 0 <= k < |e.attributes| ::
           RecordPos(p + 36, k) + 20 <= |bytes|
           && AttributeAt(bytes, RecordPos(p + 36, k), st.pool, st.mapping, rt) == Ok(e.attributes[k])
  {
    var n := I32At(bytes, p + 28);
    AttributesInOrder(bytes, p + 36, n, 0, st.pool, st.mapping, rt, []);
  }

  /**
   * A start tag decodes exactly when its header fits, every attribute record
   * decodes and both name indices lie below the pool's size. The attributes
   * are read before the names, so a failing record's error comes first.
   */
  lemma StartTagChunkDecodes(bytes: seq<Byte>, p: int, st: ReaderState, rt: Runtime)
    requires 0 <= p <= |bytes|
    ensures p + 36 > |bytes| ==> StartTagChunk(bytes, p, st, rt) == Err(BufferUnderflow)
    ensures p + 36 <= |bytes| ==>
      var attrs := AttributeList(bytes, p + 36, I32At(bytes, p + 28), 0, st.pool, st.mapping, rt, []);
      && (StartTagChunk(bytes, p, st, rt).Ok? <==>
            attrs.Ok? && I32At(bytes, p + 16) < |st.pool| && I32At(bytes, p + 20) < |st.pool|)
      && (attrs.Err? ==> StartTagChunk(bytes, p, st, rt) == Err(attrs.error))
      && (attrs.Ok? && (I32At(bytes, p + 16) >= |st.pool| || I32At(bytes, p + 20) >= |st.pool|) ==>
            StartTagChunk(bytes, p, st, rt) == Err(PoolIndexOutOfBounds))
    ensures StartTagChunk(bytes, p, st, rt).Err? ==>
      StartTagChunk(bytes, p, st, rt).error in {BufferUnderflow, PoolIndexOutOfBounds, DimenUnitOutOfBounds}
  {
    if p + 36 <= |bytes| {
      AttributeListErrors(bytes, p + 36, I32At(bytes, p + 28), 0, st.pool, st.mapping, rt, []);
    }
  }

  /** `parseEndTagChunk`: report the element's end; nothing checks it matches an open start. */
  function EndTagChunk(bytes: seq<Byte>, p: int, st: ReaderState): (r: Outcome<Step>)
    requires 0 <= p <= |bytes|
    ensures r.Ok? <==> (p + 24 <= |bytes|
      && I32At(bytes, p + 16) < |st.pool| && I32At(bytes, p + 20) < |st.pool|)
    ensures r.Err? ==> r.error == BufferUnderflow || r.error == PoolIndexOutOfBounds
    ensures r.Ok? ==>
      var uri := GetUri(st.pool, I32At(bytes, p + 16)).value;
      var localName := GetString(st.pool, I32At(bytes, p + 20)).value;
      && r.value.pos == p + 24
      && r.value.state.pool == st.pool && r.value.state.mapping == st.mapping
      && r.value.state.events == st.events + [EndElement(uri, localName, QName(st.mapping, uri, localName))]
  {
    if p + 24 > |bytes| then Err(BufferUnderflow)
    else
      var uri :- GetUri(st.pool, I32At(bytes, p + 16));
      var localName :- GetString(st.pool, I32At(bytes, p + 20));
      var e := EndElement(uri, localName, QName(st.mapping, uri, localName));
      Ok(Step(st.(events := st.events + [e]), p + 24))
  }

  /**
   * The end of an element reports the same URI, local name and qualified
   * name as its start whenever it carries the same two indices, the pool
   * has only grown and the map is the same.
   */
  lemma TagNamesAgree(bytes: seq<Byte>, p: int, st: ReaderState, rt: Runtime, p': int, st': ReaderState)
    requires 0 <= p <= |bytes| && 0 <= p' <= |bytes|
    requires StartTagChunk(bytes, p, st, rt).Ok? && EndTagChunk(bytes, p', st').Ok?
    requires I32At(bytes, p + 16) == I32At(bytes, p' + 16) && I32At(bytes, p + 20) == I32At(bytes, p' + 20)
    requires st.pool <= st'.pool && st.mapping == st'.mapping
    ensures var s := StartTagChunk(bytes, p, st, rt).value.state.events[|st.events|];
      var e := EndTagChunk(bytes, p', st').value.state.events[|st'.events|];
      && s.StartElement? && e.EndElement?
      && s.uri == e.uri && s.localName == e.localName && s.qName == e.qName
  {
    StartTagReports(bytes, p, st, rt);
    GetStringExtends(st.pool, st'.pool);
  }

  /** `parseTextChunk`: report the text; a negative index dereferences null. */
  function TextChunk(bytes: seq<Byte>, p: int, st: ReaderState): (r: Outcome<Step>)
    requires 0 <= p <= |bytes|
    ensures r.Ok? <==> p + 28 <= |bytes| && 0 <= I32At(bytes, p + 16) < |st.pool|
    ensures r.Ok? ==>
      && r.value.pos == p + 28
      && r.value.state.pool == st.pool && r.value.state.mapping == st.mapping
      && r.value.state.events == st.events + [Characters(st.pool[I32At(bytes, p + 16)])]
    ensures p + 28 > |bytes| ==> r == Err(BufferUnderflow)
    ensures p + 28 <= |bytes| && I32At(bytes, p + 16) >= |st.pool| ==> r == Err(PoolIndexOutOfBounds)
    ensures r.Err? && p + 28 <= |bytes| && I32At(bytes, p + 16) < 0 ==> r.error == NullText
  {
    if p + 28 > |bytes| then Err(BufferUnderflow)
    else
      var text :- GetString(st.pool, I32At(bytes, p + 16));
      if text.None? then Err(NullText)
      else Ok(Step(st.(events := st.events + [Characters(text.value)]), p + 28))
  }

  // ---------------------------------------------------------------------
  // Dispatch

  /** The seven chunk types the dispatcher has a decoder for. */
  predicate IsChunkType(tag: int) {
    tag in {CHUNK_STRING, CHUNK_RESOURCE_ID, CHUNK_START_NAMESPACE, CHUNK_END_NAMESPACE,
            CHUNK_START_TAG, CHUNK_END_TAG, CHUNK_TEXT}
  }

  /**
   * One round of the dispatch loop: peek the chunk type and run its decoder.
   * An unknown type raises the `assert false` when assertions are enabled
   * and otherwise leaves everything, the position included, unchanged.
   */
  function Chunk(bytes: seq<Byte>, p: int, st: ReaderState, rt: Runtime): (r: Outcome<Step>)
    requires 0 <= p <= |bytes|
    ensures r.Ok? ==> 0 <= r.value.pos <= |bytes| && Extends(st, r.value.state)
    ensures r.Err? ==> r.error != Cycle
    ensures p + 4 > |bytes| ==> r == Err(BufferUnderflow)
    ensures p + 4 <= |bytes| && !IsChunkType(I32At(bytes, p)) ==>
      r == if rt.assertionsEnabled then Err(UnknownChunkType(I32At(bytes, p))) else Ok(Step(st, p))
  {
    if p + 4 > |bytes| then Err(BufferUnderflow)
    else
      var chunkType := I32At(bytes, p);
      if chunkType == CHUNK_STRING then StringChunk(bytes, p, st)
      else if chunkType == CHUNK_RESOURCE_ID then ResourceIdChunk(bytes, p, st)
      else if chunkType == CHUNK_START_NAMESPACE then StartNamespaceChunk(bytes, p, st)
      else if chunkType == CHUNK_END_NAMESPACE then EndNamespaceChunk(bytes, p, st)
      else if chunkType == CHUNK_START_TAG then StartTagChunk(bytes, p, st, rt)
      else if chunkType == CHUNK_END_TAG then EndTagChunk(bytes, p, st)
      else if chunkType == CHUNK_TEXT then TextChunk(bytes, p, st)
      else if rt.assertionsEnabled then Err(UnknownChunkType(chunkType))
      else Ok(Step(st, p))
  }

  /** The positions `0` to `n`. */
  function Positions(n: nat): (r: set<int>)
    ensures forall i :: i in r <==> 0 <= i <= n
  {
    if n == 0 then {0} else Positions(n - 1) + {n}
  }

  /** The positions in `[0, n]` the loop has not yet started a round at. */
  function Unvisited(n: nat, visited: set<int>): set<int> {
    Positions(n) - visited
  }

  /**
   * The dispatch loop of `parse(ByteBuffer)` from position `p`: rounds run
   * while bytes remain. Where a chunk's next position depends only on the
   * bytes and a lookup that once succeeded keeps succeeding, a round that
   * starts where an earlier one started repeats forever; that is `Cycle`.
   */
  function Decode(bytes: seq<Byte>, p: int, st: ReaderState, rt: Runtime, visited: set<int>): Outcome<ReaderState>
    requires 0 <= p <= |bytes|
    decreases Unvisited(|bytes|, visited)
  {
    if p == |bytes| then Ok(st)
    else if p in visited then Err(Cycle)
    else
      var step :- Chunk(bytes, p, st, rt);
      assert p in Unvisited(|bytes|, visited) - Unvisited(|bytes|, visited + {p});
      Decode(bytes, step.pos, step.state, rt, visited + {p})
  }

  /**
   * A chunk of unknown type ends the loop: with assertions enabled by the
   * `AssertionError`, otherwise by a round that does not move, so the loop
   * repeats that round forever.
   */
  lemma UnknownChunkStops(bytes: seq<Byte>, p: int, st: ReaderState, rt: Runtime, visited: set<int>)
    requires 0 <= p && p + 4 <= |bytes| && p !in visited
    requires !IsChunkType(I32At(bytes, p))
    ensures Decode(bytes, p, st, rt, visited)
      == if rt.assertionsEnabled then Err(UnknownChunkType(I32At(bytes, p))) else Err(Cycle)
  {
    if !rt.assertionsEnabled {
      assert Chunk(bytes, p, st, rt) == Ok(Step(st, p));
      assert p in Unvisited(|bytes|, visited) - Unvisited(|bytes|, visited + {p});
      assert Decode(bytes, p, st, rt, visited) == Decode(bytes, p, st, rt, visited + {p});
    }
  }

  /** `parse(ByteBuffer)` from position `p`: skip magic and file size unchecked, then run the loop. */
  function ParseBuffer(bytes: seq<Byte>, p: int, st: ReaderState, rt: Runtime): Outcome<ReaderState>
    requires 0 <= p <= |bytes|
  {
    if p + 8 > |bytes| then Err(BufferUnderflow)
    else Decode(bytes, p + 8, st, rt, {})
  }

  /** The loop only appends: the final pool and event list extend the initial ones. */
  lemma {:induction false} DecodeExtends(bytes: seq<Byte>, p: int, st: ReaderState, rt: Runtime, visited: set<int>)
    requires 0 <= p <= |bytes|
    requires Decode(bytes, p, st, rt, visited).Ok?
    ensures Extends(st, Decode(bytes, p, st, rt, visited).value)
    decreases Unvisited(|bytes|, visited)
  {
    if p != |bytes| {
      var step := Chunk(bytes, p, st, rt).value;
      assert p in Unvisited(|bytes|, visited) - Unvisited(|bytes|, visited + {p});
      DecodeExtends(bytes, step.pos, step.state, rt, visited + {p});
    }
  }
}
