/**
 * The reader itself: an object holding the string pool, the namespace map
 * and the content handler (here, the list of events handed to it), whose
 * methods walk a `ByteCursor` the way the Java decoder walks its
 * `ByteBuffer`. Each method is proved to do exactly what the chunk function
 * of the same name in module `Chunks` computes: on success the same new
 * state and the same buffer position, on failure the same exception.
 */
module Reader {
  import opened Wrappers
  import opened Jvm
  import opened Buffer
  import opened Values
  import opened Names
  import opened Chunks

  class ManifestReader {
    var prefixMapping: PrefixMap
    var stringPool: seq<Units>
    var events: seq<Event>
    const runtime: Runtime

    /** The reader's state as the chunk functions see it. */
    function State(): ReaderState
      reads this
    {
      ReaderState(stringPool, prefixMapping, events)
    }

    /** A fresh reader: empty pool, empty map, nothing reported yet. */
    constructor (rt: Runtime)
      ensures State() == ReaderState([], map[], []) && runtime == rt
    {
      prefixMapping := map[];
      stringPool := [];
      events := [];
      runtime := rt;
    }

    /** The method left the reader and the buffer where the chunk function `spec` says. */
    ghost predicate Agrees(r: Outcome<()>, spec: Outcome<Step>, buf: ByteCursor)
      reads this, buf
    {
      match spec
        case Ok(step) => r.Ok? && State() == step.state && buf.pos == step.pos
        case Err(e) => r == Err(e)
    }

    /** `parseString(offset, buffer)`: seek, read one length-prefixed string, add it to the pool. */
    method ParseString(offset: int, buf: ByteCursor) returns (r: Outcome<()>)
      requires buf.Valid()
      modifies this`stringPool, buf`pos
      ensures buf.Valid()
      ensures var s := StringAt(buf.bytes, offset);
        match s
          case Ok(text) =>
            r.Ok? && stringPool == old(stringPool) + [text] && buf.pos == offset + 4 + 2 * |text|
          case Err(e) => r == Err(e) && stringPool == old(stringPool)
    {
      var _ :- buf.SetPosition(offset);
      var stringLength :- buf.GetShort();
      if stringLength < 0 {
        return Err(NegativeArraySize);
      }
      var units :- buf.GetBytes(2 * stringLength);
      var _ :- buf.GetShort();
      stringPool := stringPool + [Utf16Units(units)];
      r := Ok(());
    }
 
    /**
     * `parseStringChunk(buffer)`: the header, the offset table and the
     * strings, then a seek to the chunk's end.
     */
    method ParseStringChunk(buf: ByteCursor) returns (r: Outcome<()>)
      requires buf.Valid()
      modifies this`stringPool, buf`pos
      ensures buf.Valid()
      ensures Agrees(r, StringChunk(buf.bytes, old(buf.pos), old(State())), buf)
    {
      var chunkOffset := buf.pos;
      var header :- buf.GetInts(7);
      var chunkSize, stringCount, stringPoolOffset := header[1], header[2], header[5];
      var _ :- ParseStrings(chunkOffset, stringCount, stringPoolOffset, buf);
      var _ :- buf.SetPosition(Wrap32(chunkOffset + chunkSize));
      r := Ok(());
    }

    /**
     * The two loops of `parseStringChunk`: read the offset table into a
     * fresh array, then parse each string in table order.
     */
    method ParseStrings(chunkOffset: int, stringCount: int, stringPoolOffset: int, buf: ByteCursor)
      returns (r: Outcome<()>)
      requires buf.Valid() && 0 <= chunkOffset && buf.pos == chunkOffset + 28 <= |buf.bytes|
      requires stringCount == I32At(buf.bytes, chunkOffset + 8)
      requires stringPoolOffset == I32At(buf.bytes, chunkOffset + 20)
      modifies this`stringPool, buf`pos
      ensures buf.Valid()
      ensures var spec := ChunkStrings(buf.bytes, chunkOffset, old(stringPool));
        match spec
          case Ok(pool) => r.Ok? && stringPool == pool
          case Err(e) => r == Err(e)
    {
      ghost var spec := ChunkStrings(buf.bytes, chunkOffset, stringPool);
      if stringCount < 0 {
        assert spec == Err(NegativeArraySize);
        return Err(NegativeArraySize);
      }
      var stringOffsets := new int[stringCount];
      var read := ReadOffsets(stringOffsets, buf);
      if read.Err? {
        assert spec == Err(BufferUnderflow);
        return read;
      }
      var base := Wrap32(chunkOffset + stringPoolOffset);
      assert stringOffsets[..] == Int32Table(buf.bytes, chunkOffset + 28, stringCount);
      assert spec == AppendStrings(buf.bytes, base, stringOffsets[..], stringPool);
      r := AppendEach(base, stringOffsets, buf);
    }

    /** The first loop of `parseStringChunk`: one `int` per array slot, in order. */
    method ReadOffsets(stringOffsets: array<int>, buf: ByteCursor) returns (r: Outcome<()>)
      requires buf.Valid()
      modifies stringOffsets, buf`pos
      ensures buf.Valid()
      ensures old(buf.pos) + 4 * stringOffsets.Length <= |buf.bytes| ==>
        r.Ok? && stringOffsets[..] == Int32Table(buf.bytes, old(buf.pos), stringOffsets.Length)
        && buf.pos == old(buf.pos) + 4 * stringOffsets.Length
      ensures old(buf.pos) + 4 * stringOffsets.Length > |buf.bytes| ==> r == Err(BufferUnderflow)
    {
      ghost var start := buf.pos;
      for i := 0 to stringOffsets.Length
        invariant buf.Valid() && buf.pos == start + 4 * i
        invariant forall k | 0 <= k < i :: stringOffsets[k] == I32At(buf.bytes, start + 4 * k)
      {
        var offset :- buf.GetInt();
        stringOffsets[i] := offset;
      }
      r := Ok(());
    }

    /** The second loop of `parseStringChunk`: the string at `base` plus each offset, in order. */
    method AppendEach(base: int, stringOffsets: array<int>, buf: ByteCursor) returns (r: Outcome<()>)
      requires buf.Valid() && IsInt32(base)
      modifies this`stringPool, buf`pos
      ensures buf.Valid()
      ensures var spec := AppendStrings(buf.bytes, base, stringOffsets[..], old(stringPool));
        match spec
          case Ok(pool) => r.Ok? && stringPool == pool
          case Err(e) => r == Err(e)
    {
      ghost var pool0 := stringPool;
      ghost var offsets := stringOffsets[..];
      for i := 0 to stringOffsets.Length
        invariant buf.Valid()
        invariant AppendStrings(buf.bytes, base, offsets, pool0)
          == AppendStrings(buf.bytes, base, offsets[i..], stringPool)
      {
        assert offsets[i..][0] == stringOffsets[i] && offsets[i..][1..] == offsets[i + 1..];
        ghost var text := StringAt(buf.bytes, Wrap32(base + stringOffsets[i]));
        ghost var pool := stringPool;
        var read := ParseString(Wrap32(base + stringOffsets[i]), buf);
        if read.Err? {
          assert AppendStrings(buf.bytes, base, offsets[i..], pool) == Err(read.error);
          return read;
        }
        assert AppendStrings(buf.bytes, base, offsets[i..], pool)
          == AppendStrings(buf.bytes, base, offsets[i + 1..], pool + [text.value]);
      }
      r := Ok(());
    }
 
    /** `parseResourceIdChunk(buffer)`: skip the chunk by its declared size. */
    method ParseResourceIdChunk(buf: ByteCursor) returns (r: Outcome<()>)
      requires buf.Valid()
      modifies buf`pos
      ensures buf.Valid()
      ensures Agrees(r, ResourceIdChunk(buf.bytes, old(buf.pos), State()), buf)
    {
      var chunkOffset := buf.pos;
      var header :- buf.GetInts(2);
      var chunkSize := header[1];
      var _ :- buf.SetPosition(Wrap32(chunkOffset + chunkSize));
      r := Ok(());
    }

    /** `parseStartNamespaceChunk(buffer)`: bind the URI to the prefix, then report the binding. */
    method ParseStartNamespaceChunk(buf: ByteCursor) returns (r: Outcome<()>)
      requires buf.Valid()
      modifies this`prefixMapping, this`events, buf`pos
      ensures buf.Valid()
      ensures Agrees(r, StartNamespaceChunk(buf.bytes, old(buf.pos), old(State())), buf)
    {
      var header :- buf.GetInts(6);
      var prefix, uri := header[4], header[5];
      var uriString :- GetString(stringPool, uri);
      var prefixString :- GetString(stringPool, prefix);
      prefixMapping := prefixMapping[uriString := prefixString];
      events := events + [StartPrefix(prefixString, uriString)];
      r := Ok(());
    }

    /** `parseEndNamespaceChunk(buffer)`: report the end of the prefix's scope, keeping the binding. */
    method ParseEndNamespaceChunk(buf: ByteCursor) returns (r: Outcome<()>)
      requires buf.Valid()
      modifies this`events, buf`pos
      ensures buf.Valid()
      ensures Agrees(r, EndNamespaceChunk(buf.bytes, old(buf.pos), old(State())), buf)
    {
      var header :- buf.GetInts(6);
      var prefix := header[4];
      var prefixString :- GetString(stringPool, prefix);
      events := events + [EndPrefix(prefixString)];
      r := Ok(());
    }

    /** `parseAttributeValue(type, buffer)`: read the data word and render it for its type. */
    method ParseAttributeValue(tag: int, buf: ByteCursor) returns (r: Outcome<Units>)
      requires buf.Valid() && IsInt32(tag)
      modifies buf`pos
      ensures buf.Valid()
      ensures old(buf.pos) + 4 <= |buf.bytes| ==>
        r == FormatValue(tag, I32At(buf.bytes, old(buf.pos)), runtime) && buf.pos == old(buf.pos) + 4
      ensures old(buf.pos) + 4 > |buf.bytes| ==> r == Err(BufferUnderflow)
    {
      var data :- buf.GetInt();
      r := FormatValue(tag, data, runtime);
    }

    /** `parseAttribute(buffer, attributes)`: one 20-byte attribute record. */
    method ParseAttribute(buf: ByteCursor) returns (r: Outcome<Attribute>)
      requires buf.Valid()
      modifies buf`pos
      ensures buf.Valid()
      ensures old(buf.pos) + 20 <= |buf.bytes| ==>
        r == AttributeAt(buf.bytes, old(buf.pos), stringPool, prefixMapping, runtime)
        && buf.pos == old(buf.pos) + 20
      ensures old(buf.pos) + 20 > |buf.bytes| ==> r == Err(BufferUnderflow)
    {
      ghost var q := buf.pos;
      var record :- buf.GetInts(4);
      var namespaceUri, name, stringIndex, tag := record[0], record[1], record[2], record[3];
      assert namespaceUri == I32At(buf.bytes, q) && name == I32At(buf.bytes, q + 4);
      assert stringIndex == I32At(buf.bytes, q + 8) && tag == I32At(buf.bytes, q + 12);
      var attributeValue: JString;
      if tag == TYPE_STRING {
        var _ :- buf.GetInt();
        attributeValue :- GetString(stringPool, stringIndex);
      } else {
        var text :- ParseAttributeValue(tag, buf);
        attributeValue := Some(text);
      }
      var uri :- GetUri(stringPool, namespaceUri);
      var localName :- GetString(stringPool, name);
      r := Ok(Attribute(uri, localName, QName(prefixMapping, uri, localName), attributeValue));
    }

    /** `parseStartTagChunk(buffer)`: the header, `attributeCount` attribute records, then the report. */
    method ParseStartTagChunk(buf: ByteCursor) returns (r: Outcome<()>)
      requires buf.Valid()
      modifies this`events, buf`pos
      ensures buf.Valid()
      ensures Agrees(r, StartTagChunk(buf.bytes, old(buf.pos), old(State()), runtime), buf)
    {
      ghost var start := buf.pos;
      var header :- buf.GetInts(9);
      var namespaceUri, name, attributeCount := header[4], header[5], header[7];
      r := ReportStartTag(start, namespaceUri, name, attributeCount, buf);
    }

    /** The rest of `parseStartTagChunk`: the attribute loop, the names, and the `startElement` call. */
    method ReportStartTag(ghost start: int, namespaceUri: int, name: int, attributeCount: int, buf: ByteCursor)
      returns (r: Outcome<()>)
      requires buf.Valid() && 0 <= start && buf.pos == start + 36
      requires namespaceUri == I32At(buf.bytes, start + 16) && name == I32At(buf.bytes, start + 20)
      requires attributeCount == I32At(buf.bytes, start + 28)
      modifies this`events, buf`pos
      ensures buf.Valid()
      ensures Agrees(r, StartTagBody(buf.bytes, start, old(State()), runtime), buf)
    {
      ghost var list := AttributeList(buf.bytes, start + 36, attributeCount, 0, stringPool, prefixMapping, runtime, []);
      var attributes :- ParseAttributes(attributeCount, buf);
      assert list.Ok? && attributes == list.value.attributes && buf.pos == list.value.end;
      var uri :- GetUri(stringPool, namespaceUri);
      var localName :- GetString(stringPool, name);
      events := events + [StartElement(uri, localName, QName(prefixMapping, uri, localName), attributes)];
      r := Ok(());
    }

    /** The attribute loop of `parseStartTagChunk`: `attributeCount` records, in order. */
    method ParseAttributes(attributeCount: int, buf: ByteCursor) returns (r: Outcome<seq<Attribute>>)
      requires buf.Valid()
      modifies buf`pos
      ensures buf.Valid()
      ensures var spec := AttributeList(buf.bytes, old(buf.pos), attributeCount, 0, stringPool, prefixMapping, runtime, []);
        match spec
          case Ok(run) => r == Ok(run.attributes) && buf.pos == run.end
          case Err(e) => r == Err(e)
    {
      ghost var base := buf.pos;
      var attributes: seq<Attribute> := [];
      var i := 0;
      while i < attributeCount
        invariant buf.Valid() && 0 <= i && |attributes| == i && buf.pos == RecordPos(base, i)
        invariant AttributeList(buf.bytes, base, attributeCount, 0, stringPool, prefixMapping, runtime, [])
          == AttributeList(buf.bytes, base, attributeCount, i, stringPool, prefixMapping, runtime, attributes)
        decreases attributeCount - i
      {
        var attribute :- ParseAttribute(buf);
        attributes := attributes + [attribute];
        i := i + 1;
      }
      r := Ok(attributes);
    }

    /** `parseEndTagChunk(buffer)`: report the end of the element. */
    method ParseEndTagChunk(buf: ByteCursor) returns (r: Outcome<()>)
      requires buf.Valid()
      modifies this`events, buf`pos
      ensures buf.Valid()
      ensures Agrees(r, EndTagChunk(buf.bytes, old(buf.pos), old(State())), buf)
    {
      var header :- buf.GetInts(6);
      var namespaceUri, name := header[4], header[5];
      var uri :- GetUri(stringPool, namespaceUri);
      var localName :- GetString(stringPool, name);
      events := events + [EndElement(uri, localName, QName(prefixMapping, uri, localName))];
      r := Ok(());
    }

    /** `parseTextChunk(buffer)`: report the text; a negative index is a null dereference. */
    method ParseTextChunk(buf: ByteCursor) returns (r: Outcome<()>)
      requires buf.Valid()
      modifies this`events, buf`pos
      ensures buf.Valid()
      ensures Agrees(r, TextChunk(buf.bytes, old(buf.pos), old(State())), buf)
    {
      var header :- buf.GetInts(7);
      var name := header[4];
      var text :- GetString(stringPool, name);
      if text.None? {
        return Err(NullText);
      }
      events := events + [Characters(text.value)];
      r := Ok(());
    }
 
    /**
     * `parse(ByteBuffer)`: skip the magic number and the file size, then
     * run one chunk decoder per round while bytes remain, choosing it by the
     * peeked chunk type. A round that starts where an earlier round started
     * would repeat forever; the method stops there with `Cycle`.
     */
    method Parse(buf: ByteCursor) returns (r: Outcome<()>)
      requires buf.Valid()
      modifies this`stringPool, this`prefixMapping, this`events, buf`pos
      ensures buf.Valid()
      ensures match ParseBuffer(buf.bytes, old(buf.pos), old(State()), runtime)
        case Ok(st) => r.Ok? && State() == st && buf.pos == |buf.bytes|
        case Err(e) => r == Err(e)
    {
      ghost var result := ParseBuffer(buf.bytes, buf.pos, State(), runtime);
      var _ :- buf.GetInts(2);
      var visited: set<int> := {};
      while buf.HasRemaining()
        invariant buf.Valid()
        invariant Decode(buf.bytes, buf.pos, State(), runtime, visited) == result
        decreases Unvisited(|buf.bytes|, visited)
      {
        var chunkOffset := buf.pos;
        if chunkOffset in visited {
          return Err(Cycle);
        }
        ghost var st := State();
        var chunkType :- buf.PeekInt();
        visited := visited + {chunkOffset};
        var round: Outcome<()>;
        if chunkType == CHUNK_STRING {
          round := ParseStringChunk(buf);
        } else if chunkType == CHUNK_RESOURCE_ID {
          round := ParseResourceIdChunk(buf);
        } else if chunkType == CHUNK_START_NAMESPACE {
          round := ParseStartNamespaceChunk(buf);
        } else if chunkType == CHUNK_END_NAMESPACE {
          round := ParseEndNamespaceChunk(buf);
        } else if chunkType == CHUNK_START_TAG {
          round := ParseStartTagChunk(buf);
        } else if chunkType == CHUNK_END_TAG {
          round := ParseEndTagChunk(buf);
        } else if chunkType == CHUNK_TEXT {
          round := ParseTextChunk(buf);
        } else if runtime.assertionsEnabled {
          round := Err(UnknownChunkType(chunkType));
        } else {
          round := Ok(());
        }
        assert Agrees(round, Chunk(buf.bytes, chunkOffset, st, runtime), buf);
        assert chunkOffset in Unvisited(|buf.bytes|, visited - {chunkOffset}) - Unvisited(|buf.bytes|, visited);
        var _ :- round;
      }
      r := Ok(());
    }
  }
}
