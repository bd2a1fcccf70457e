# Binary AndroidManifest.xml decoder, modelled in Dafny

`AndroidManifestReader` is a SAX `XMLReader` that decodes the compiled binary
XML stored as `AndroidManifest.xml` inside an APK. It walks a little-endian
`ByteBuffer` chunk by chunk. It keeps a string pool and a URI-to-prefix map,
and it reports the document to a `ContentHandler` as prefix-mapping, element
and character events.

The document is a sequence of chunks, each starting with a 32-bit type tag:
- a string chunk appends UTF-16 strings to the pool;
- a resource-id chunk is skipped by its declared size;
- a start-namespace chunk binds a prefix to a URI, and an end-namespace
  chunk reports the end of the prefix's scope (the binding stays);
- start and end tag chunks report elements, with typed attributes;
- a text chunk reports character data.

The project has three layers:

- **Specification functions** (`Chunks`, `Values`, `Names`). There is one
  function per chunk decoder. Each takes the bytes, the chunk's start and the
  reader's state (pool, prefix map, events reported so far). It returns the
  new state and position, or the Java exception the decoder raises.
  - `Decode` is the dispatch loop of `parse(ByteBuffer)`.
  - `FormatValue` is the typed attribute formatter.
  - `GetString`, `GetUri` and `QName` are the pool and prefix lookups.
- **The imperative reader** (`Reader.ManifestReader`, over
  `Buffer.ByteCursor`). This is a class with the Java object's fields:
  `stringPool`, `prefixMapping`, and the handler's event list. Its methods
  move a cursor the way the Java methods move the buffer, with the same loops
  (the offset table into an array, the string loop, the attribute loop, the
  dispatch `while`). Each method is proved to leave the reader and the cursor
  exactly where the specification function says, or to fail with the same
  exception.
- **Properties** of the specification:
  - round trips of the byte and text encodings (little-endian `int`/`short`,
    UTF-16 code units, length-prefixed strings, `%08X`, `Integer.toString`);
  - what each chunk adds to the state, and what it leaves alone;
  - attribute order;
  - prefix binding and qualified-name splitting;
  - start and end tags agreeing on names;
  - the loop only appends to the pool and the event list;
  - a characterisation of the loop, round by round, including when it never
    terminates.

Java semantics are modelled explicitly:
- `int` wrap-around for `chunkOffset + chunkSize` and for the string
  offsets (`Jvm.Wrap32`);
- arithmetic `>>` and `& 0xFF` on negative words;
- `short` lengths;
- `null` strings (`JString`);
- the text `"null"` that string concatenation produces.

Every exception aborts the parse and becomes a `Failure` value. A loop that
returns to a chunk position it has already started at never returns normally
in Java; the model reports that as `Cycle` (see "## Left out" for how the Java
run ends).

`Example` decodes a whole document: the smallest manifest with one namespace
and one element, 174 bytes laid out chunk by chunk, and the exact pool, prefix
map and handler calls `parse(ByteBuffer)` leaves behind for it.

## Model

| member | source | states |
|---|---|---|
| Jvm.Wrap32Congruent | src/cc/whohow/android/AndroidManifestReader.java:229 | Java `int` addition (as in `chunkOffset + chunkSize`) differs from the exact sum by a multiple of 2^32, and always gives an `int` |
| Jvm.Unsigned32 | src/cc/whohow/android/AndroidManifestReader.java:317 | the unsigned reading of an `int` that `%08X` prints is below 2^32 and reads back as the same `int` |
| Buffer.I32RoundTrip | src/cc/whohow/android/AndroidManifestReader.java:211-217 | `getInt()` at a position reads back exactly the `int` whose four little-endian bytes were written there, whatever surrounds them |
| Buffer.I16RoundTrip | src/cc/whohow/android/AndroidManifestReader.java:234 | `getShort()` reads back any non-negative string length below 2^15 written as two little-endian bytes |
| Buffer.Utf16RoundTrip | src/cc/whohow/android/AndroidManifestReader.java:238 | the UTF-16LE code units of the bytes of a sequence of code units are that sequence |
| Buffer.Int32Table | src/cc/whohow/android/AndroidManifestReader.java:218-221 | the offset table has `n` entries, entry k being the `int` 4k bytes after its start |
| Buffer.ByteCursor.GetInt | src/cc/whohow/android/AndroidManifestReader.java:220 | the little-endian `int` at the position and a move of 4 bytes, or `BufferUnderflowException` with the position unchanged |
| Buffer.ByteCursor.GetInts | src/cc/whohow/android/AndroidManifestReader.java:211-217 | a run of `getInt()` calls yields the table of `int`s from the position and moves past them, or underflows when they do not all fit |
| Buffer.ByteCursor.GetShort | src/cc/whohow/android/AndroidManifestReader.java:234 | the little-endian signed 16-bit value at the position and a move of 2 bytes, or an underflow with the position unchanged |
| Buffer.ByteCursor.GetBytes | src/cc/whohow/android/AndroidManifestReader.java:235-236 | `get(byte[])` returns exactly the next `n` bytes and moves past them, or underflows without moving |
| Buffer.ByteCursor.SetPosition | src/cc/whohow/android/AndroidManifestReader.java:233 | `position(p)` moves to any `p` in `[0, limit]` and throws `IllegalArgumentException` otherwise, without moving |
| Buffer.ByteCursor.PeekInt | src/cc/whohow/android/AndroidManifestReader.java:157-159 | `mark(); getInt(); reset()` yields the `int` at the position and leaves the position unchanged |
| Format.HexFixedRoundTrip | src/cc/whohow/android/AndroidManifestReader.java:336 | zero-padded upper-case hexadecimal of a number below 16^width reads back as that number |
| Format.Hex8RoundTrip | src/cc/whohow/android/AndroidManifestReader.java:336 | `%08X` of an `int` is eight upper-case hex digits whose value is the `int`'s unsigned bit pattern |
| Format.DecimalDigitsRoundTrip | src/cc/whohow/android/AndroidManifestReader.java:333 | the decimal digits of a natural number read back as that number, form a single digit exactly when it is below 10, and never start with a zero when there are two or more |
| Format.DecimalRoundTrip | src/cc/whohow/android/AndroidManifestReader.java:333 | `Integer.toString` is the canonical numeral: a minus sign exactly for negatives, then digits with no leading zero (0 is the single digit "0"), reading back as the same integer |
| Format.NumeralUnique | src/cc/whohow/android/AndroidManifestReader.java:333 | the canonical numeral is unique: any text that is the canonical numeral of `x` is exactly what `Integer.toString(x)` writes (with `DecimalRoundTrip`, an if-and-only-if) |
| Values.LowByte | src/cc/whohow/android/AndroidManifestReader.java:327 | `data & 0xFF` is the low byte of the data word: below 256 and congruent to `data` modulo 256, even for negative data |
| Values.ShiftRight8 | src/cc/whohow/android/AndroidManifestReader.java:327 | `data >> 8` is the largest `r` with `r * 256 <= data`, i.e. it rounds toward minus infinity |
| Values.FormatValue | src/cc/whohow/android/AndroidManifestReader.java:314-349 | formatting fails exactly for a dimension whose unit index `data & 0xFF` is 6 or more, with `ArrayIndexOutOfBoundsException` |
| Values.BoolValue | src/cc/whohow/android/AndroidManifestReader.java:338-340 | a boolean renders as "true" exactly when the data word is nonzero and as "false" exactly when it is zero |
| Values.IntValue | src/cc/whohow/android/AndroidManifestReader.java:332-334 | an integer renders as the canonical decimal numeral of the data word: a minus sign exactly when it is negative, then digits with no leading zero (0 is "0"), denoting the word; by `NumeralUnique` this pins the text down exactly |
| Values.DimenValue | src/cc/whohow/android/AndroidManifestReader.java:325-328 | a dimension renders as the canonical decimal numeral of a `v` with `v * 256 <= data < v * 256 + 256` (that is, `data >> 8`) followed by the unit the low byte selects, and fails for unit index 6 or more |
| Values.HexValues | src/cc/whohow/android/AndroidManifestReader.java:316-344 | id and attribute references, flags and both colour types render as their prefix ("@id/0x", "?id/0x", "0x", "#") then `%08X` of the data word |
| Values.FallbackValue | src/cc/whohow/android/AndroidManifestReader.java:345-347 | any other type renders as `%08X` of the type, "/0x", then `%08X` of the data word |
| Values.FloatValues | src/cc/whohow/android/AndroidManifestReader.java:322-331 | floats and fractions render as the runtime's text for the data word's bits |
| Values.DimenExample | src/cc/whohow/android/AndroidManifestReader.java:121 | the dimension word 0x00012C01 renders as "300dp" (unit index 1 of the table) |
| Names.GetString | src/cc/whohow/android/AndroidManifestReader.java:188-190 | an index is null when negative, the pool's string when inside the pool, and `IndexOutOfBoundsException` exactly when at or past its end |
| Names.GetUri | src/cc/whohow/android/AndroidManifestReader.java:192-195 | as `GetString`, with null replaced by the empty string; fails exactly past the pool's end |
| Names.QName | src/cc/whohow/android/AndroidManifestReader.java:201-206 | the bare local name when the URI is empty, otherwise a non-null string |
| Names.QNameSplits | src/cc/whohow/android/AndroidManifestReader.java:205 | a qualified name splits at its first colon into the rendered prefix (the text "null" when unbound) and the rendered local name, when the prefix has no colon |
| Names.GetStringExtends | src/cc/whohow/android/AndroidManifestReader.java:238 | appending to the pool keeps every earlier index's lookup and makes each new index look up its own string |
| Chunks.StringAt | src/cc/whohow/android/AndroidManifestReader.java:232-239 | a string read at `offset` lies, with its length and terminator, inside the buffer |
| Chunks.StringAtErrors | src/cc/whohow/android/AndroidManifestReader.java:232-236 | a string read fails only with `IllegalArgumentException` (a seek outside the buffer, always so reported), `BufferUnderflowException`, or `NegativeArraySizeException` (exactly so for a negative length) |
| Chunks.StringRoundTrip | src/cc/whohow/android/AndroidManifestReader.java:232-239 | `parseString` reads back exactly the string written as length, UTF-16LE units and any two terminator bytes, wherever it sits |
| Chunks.AppendStrings | src/cc/whohow/android/AndroidManifestReader.java:224-226 | the string loop keeps the pool as a prefix and adds one string per offset |
| Chunks.AppendStringsReads | src/cc/whohow/android/AndroidManifestReader.java:224-226 | pool entry `|pool| + k` is the string at the `int` sum of base and offset k, for every k, in order |
| Chunks.AppendStringsErrors | src/cc/whohow/android/AndroidManifestReader.java:224-226 | the string loop fails only with the errors of one string read: an illegal seek, an underflow or a negative array size |
| Chunks.ChunkStrings | src/cc/whohow/android/AndroidManifestReader.java:218-226 | allocating the table and reading the strings only ever extends the pool |
| Chunks.ChunkStringsAppends | src/cc/whohow/android/AndroidManifestReader.java:218-226 | a successful table loop has a non-negative `stringCount`, adds exactly that many strings, string k being the one at chunk start + pool offset + offset k |
| Chunks.StringChunk | src/cc/whohow/android/AndroidManifestReader.java:208-230 | a string chunk ends at the `int` sum of its start and declared size, inside the buffer, and only extends the pool: map and events unchanged |
| Chunks.StringChunkDecodes | src/cc/whohow/android/AndroidManifestReader.java:208-230 | a string chunk decodes exactly when its 28-byte header fits, `stringCount` is not negative, the offset table fits, every string decodes and the declared end is inside the buffer; a short header or table is `BufferUnderflowException`, a negative count `NegativeArraySizeException`, an end outside the buffer `IllegalArgumentException`, and no other error occurs |
| Chunks.StringChunkAppends | src/cc/whohow/android/AndroidManifestReader.java:208-230 | after a string chunk, old indices look up what they did before, and each new index k looks up the k-th string of the chunk |
| Chunks.ResourceIdChunk | src/cc/whohow/android/AndroidManifestReader.java:241-247 | a resource-id chunk changes no state and ends at its start plus its declared size (as an `int` sum) |
| Chunks.ResourceIdChunkDecodes | src/cc/whohow/android/AndroidManifestReader.java:241-247 | a resource-id chunk decodes exactly when type and size fit and the declared end is inside the buffer; otherwise `BufferUnderflowException` for a short header and `IllegalArgumentException` for the seek |
| Chunks.StartNamespaceChunk | src/cc/whohow/android/AndroidManifestReader.java:249-259 | succeeds exactly when the header fits and both indices are below the pool size; then binds the URI to the prefix and reports `startPrefixMapping(prefix, uri)` |
| Chunks.StartNamespaceBindsPrefix | src/cc/whohow/android/AndroidManifestReader.java:257 | after a start-namespace chunk, every qualified name under its URI is prefix, colon, local name |
| Chunks.EndNamespaceChunk | src/cc/whohow/android/AndroidManifestReader.java:261-270 | succeeds exactly when the header fits and the prefix index is below the pool size; reports `endPrefixMapping(prefix)` and leaves the map unchanged |
| Chunks.EndNamespaceKeepsBinding | src/cc/whohow/android/AndroidManifestReader.java:269 | a start/end namespace pair leaves the URI bound to the prefix and reports the two events in order |
| Chunks.AttributeValue | src/cc/whohow/android/AndroidManifestReader.java:300-306 | a string-typed value is the pool lookup of its string index; any other value is the formatter's text, or its failure |
| Chunks.AttributeAtFields | src/cc/whohow/android/AndroidManifestReader.java:294-312 | a record decodes exactly when its value does and its URI and name indices are below the pool size, else fails with the pool's or the unit table's index error; it gives URI (empty for none) from word 0, local name from word 1, the qualified name of the two through the map, and the value from words 2-4 |
| Chunks.AttributeList | src/cc/whohow/android/AndroidManifestReader.java:284-286 | the attribute loop reads `max(count, 0)` records of 20 bytes and yields one attribute per record |
| Chunks.AttributesInOrder | src/cc/whohow/android/AndroidManifestReader.java:294-312 | attribute k is the decode of record k, the 20-byte record 20k bytes after the first |
| Chunks.AttributeListErrors | src/cc/whohow/android/AndroidManifestReader.java:284-286 | the attribute loop fails only with an underflow, a pool index error or the unit table's index error |
| Chunks.StartTagChunk | src/cc/whohow/android/AndroidManifestReader.java:272-292 | a start tag ends after its header and `max(attributeCount, 0)` records, keeps pool and map, and reports exactly one `startElement` |
| Chunks.StartTagChunkDecodes | src/cc/whohow/android/AndroidManifestReader.java:272-292 | a start tag decodes exactly when its 36-byte header fits, the attribute loop succeeds and both name indices are below the pool size; a short header underflows, a failing attribute loop passes its exception on, a bad name index is `IndexOutOfBoundsException`, and no other error occurs |
| Chunks.StartTagReports | src/cc/whohow/android/AndroidManifestReader.java:283-291 | the reported element has the URI (empty for none), local name and qualified name of the header's indices, and one attribute per record, in order |
| Chunks.EndTagChunk | src/cc/whohow/android/AndroidManifestReader.java:351-363 | an end tag succeeds exactly when its header fits and both indices are below the pool size (else underflow or index error); it ends 24 bytes after its start, keeps pool and map, and reports `endElement` with the URI (empty for none), local name and qualified name of its indices |
| Chunks.TagNamesAgree | src/cc/whohow/android/AndroidManifestReader.java:288-290 | an end tag with the start tag's indices, over a grown pool and the same map, reports the same URI, local name and qualified name |
| Chunks.TextChunk | src/cc/whohow/android/AndroidManifestReader.java:365-376 | succeeds exactly when the header fits and the index is in the pool, and reports that string; a short header is `BufferUnderflowException`, an index at or past the pool's end `IndexOutOfBoundsException`, a negative index `NullPointerException` |
| Chunks.Chunk | src/cc/whohow/android/AndroidManifestReader.java:157-184 | one round stays within the buffer and only appends to pool and events; it underflows when no type tag fits; an unknown tag raises `AssertionError` when assertions are enabled and is a round that changes nothing otherwise |
| Chunks.UnknownChunkStops | src/cc/whohow/android/AndroidManifestReader.java:182-183 | the loop ends at an unknown chunk type: with `AssertionError` when assertions are enabled, and as `Cycle` (the round repeats forever) otherwise |
| Chunks.DecodeExtends | src/cc/whohow/android/AndroidManifestReader.java:152-186 | a parse that returns only appends to the string pool and to the reported events |
| Loop.Rounds | src/cc/whohow/android/AndroidManifestReader.java:156-185 | `n` rounds of the loop that succeed end inside the buffer, only append to pool and events; a round only succeeds when bytes remain at its start |
| Loop.RoundsSplit | src/cc/whohow/android/AndroidManifestReader.java:156-185 | `a` rounds followed by `b` rounds are `a + b` rounds |
| Loop.RoundsPrefix | src/cc/whohow/android/AndroidManifestReader.java:156-185 | if `n` rounds succeed, so do fewer |
| Loop.AppendStringsStable | src/cc/whohow/android/AndroidManifestReader.java:224-226 | whether the string loop succeeds does not depend on the pool it appends to |
| Loop.AttributeListStable | src/cc/whohow/android/AndroidManifestReader.java:284-286 | an attribute loop that succeeds keeps succeeding over any pool at least as long and any map |
| Loop.StringChunkStable | src/cc/whohow/android/AndroidManifestReader.java:208-230 | a string chunk that decodes over one pool decodes over any longer one, ending at the same position and adding as many strings |
| Loop.StartTagStable | src/cc/whohow/android/AndroidManifestReader.java:272-292 | a start tag that decodes over one pool decodes over any longer one |
| Loop.ChunkStable | src/cc/whohow/android/AndroidManifestReader.java:160-184 | a round that succeeds over one pool succeeds over any longer one, ending at the same position and adding as many strings |
| Loop.RoundsStable | src/cc/whohow/android/AndroidManifestReader.java:156-185 | `n` rounds that succeed over one pool succeed over any longer one, ending at the same position |
| Loop.CycleRunsForever | src/cc/whohow/android/AndroidManifestReader.java:156 | once rounds lead from a position back to itself, every number of rounds succeeds: `while (hasRemaining())` never exits |
| Loop.ReachedFromStep | src/cc/whohow/android/AndroidManifestReader.java:156-185 | one more successful round extends the rounds that led to the current position |
| Loop.RoundsSnoc | src/cc/whohow/android/AndroidManifestReader.java:156-185 | `n` rounds followed by the next chunk decoder are `n + 1` rounds |
| Loop.RoundsOne | src/cc/whohow/android/AndroidManifestReader.java:157-184 | one round is the chunk decoder the peeked type selects |
| Loop.HistoryStep | src/cc/whohow/android/AndroidManifestReader.java:156-185 | after a round, every chunk start visited so far, this one included, has rounds leading to the new position |
| Loop.DecodeIsLoop | src/cc/whohow/android/AndroidManifestReader.java:156-185 | the loop's result is the state after the rounds that reach the limit, or the exception of the first failing round, or `Cycle` exactly when every number of rounds succeeds |
| Loop.ParseBufferIsLoop | src/cc/whohow/android/AndroidManifestReader.java:152-186 | `parse(ByteBuffer)` underflows when magic and file size do not fit, and otherwise is the loop from the byte after them |
| Example.StringStep | src/cc/whohow/android/AndroidManifestReader.java:208-230 | a string chunk of three strings at offsets 0, 6 and 12 fills the empty pool with "a", "u", "m" and ends 58 bytes on, whatever its unread words hold |
| Example.StartNamespaceStep | src/cc/whohow/android/AndroidManifestReader.java:249-259 | a start-namespace chunk with prefix index 0 and URI index 1 binds "u" to "a" and reports `startPrefixMapping("a", "u")` |
| Example.StartTagStep | src/cc/whohow/android/AndroidManifestReader.java:272-292 | a start tag with URI index 1, name index 2 and no attributes reports `startElement("u", "m", "a:m")` with no attributes |
| Example.EndTagStep | src/cc/whohow/android/AndroidManifestReader.java:351-363 | the matching end tag reports `endElement("u", "m", "a:m")` |
| Example.EndNamespaceStep | src/cc/whohow/android/AndroidManifestReader.java:261-270 | an end-namespace chunk for prefix index 0 reports `endPrefixMapping("a")` and keeps the binding |
| Example.DecodeStep | src/cc/whohow/android/AndroidManifestReader.java:156-185 | a round that succeeds from a position not started at before hands the loop on to the next chunk |
| Example.DocumentDecodes | src/cc/whohow/android/AndroidManifestReader.java:152-186 | any document laid out as the minimal manifest decodes to the pool "a", "u", "m", the binding of "u" to "a", and the four calls startPrefixMapping, startElement, endElement, endPrefixMapping in that order |
| Example.MinimalManifest | src/cc/whohow/android/AndroidManifestReader.java:152-186 | the concrete 174-byte manifest decodes to exactly that state |
| Reader.ManifestReader.constructor | src/cc/whohow/android/AndroidManifestReader.java:128-129 | a new reader has an empty pool, an empty prefix map and nothing reported |
| Reader.ManifestReader.ParseString | src/cc/whohow/android/AndroidManifestReader.java:232-239 | the method appends the string `StringAt` reads and ends after its terminator, or throws its exception and leaves the pool unchanged |
| Reader.ManifestReader.ParseStringChunk | src/cc/whohow/android/AndroidManifestReader.java:208-230 | the method leaves the reader and the buffer where `StringChunk` says, or throws the same exception |
| Reader.ManifestReader.ParseStrings | src/cc/whohow/android/AndroidManifestReader.java:218-226 | the array and string loops leave the pool as `ChunkStrings` says, or throw the same exception |
| Reader.ManifestReader.ReadOffsets | src/cc/whohow/android/AndroidManifestReader.java:219-221 | the array loop fills slot k with the k-th `int` from the position, or underflows when the table does not fit |
| Reader.ManifestReader.AppendEach | src/cc/whohow/android/AndroidManifestReader.java:224-226 | the string loop leaves the pool as `AppendStrings` says, or throws the same exception |
| Reader.ManifestReader.ParseResourceIdChunk | src/cc/whohow/android/AndroidManifestReader.java:241-247 | the method moves the buffer where `ResourceIdChunk` says, or throws the same exception |
| Reader.ManifestReader.ParseStartNamespaceChunk | src/cc/whohow/android/AndroidManifestReader.java:249-259 | the method updates the map and the events as `StartNamespaceChunk` says, or throws the same exception |
| Reader.ManifestReader.ParseEndNamespaceChunk | src/cc/whohow/android/AndroidManifestReader.java:261-270 | the method reports as `EndNamespaceChunk` says, or throws the same exception |
| Reader.ManifestReader.ParseAttributeValue | src/cc/whohow/android/AndroidManifestReader.java:314-349 | the method reads the data word and returns `FormatValue` of it, or underflows |
| Reader.ManifestReader.ParseAttribute | src/cc/whohow/android/AndroidManifestReader.java:294-312 | the method reads one 20-byte record and returns what `AttributeAt` decodes from it, or underflows |
| Reader.ManifestReader.ParseStartTagChunk | src/cc/whohow/android/AndroidManifestReader.java:272-292 | the method reports as `StartTagChunk` says, or throws the same exception |
| Reader.ManifestReader.ReportStartTag | src/cc/whohow/android/AndroidManifestReader.java:283-291 | the attribute loop and the names leave the reader where `StartTagChunk` says after the header |
| Reader.ManifestReader.ParseAttributes | src/cc/whohow/android/AndroidManifestReader.java:283-286 | the attribute loop returns the attributes `AttributeList` decodes and ends after the last record, or throws the same exception |
| Reader.ManifestReader.ParseEndTagChunk | src/cc/whohow/android/AndroidManifestReader.java:351-363 | the method reports as `EndTagChunk` says, or throws the same exception |
| Reader.ManifestReader.ParseTextChunk | src/cc/whohow/android/AndroidManifestReader.java:365-376 | the method reports as `TextChunk` says, or throws the same exception |
| Reader.ManifestReader.Parse | src/cc/whohow/android/AndroidManifestReader.java:152-186 | the method ends with the state `ParseBuffer` computes and the buffer exhausted, or with the same exception, `Cycle` standing for a loop that never ends |

## Left out

- `parse(InputStream)`, `parse(InputSource)` and `parse(String)`
  (`src/cc/whohow/android/AndroidManifestReader.java:131-150`, `436-444`) are
  left out. They read a stream into a buffer, or throw. The model starts from
  the buffer's bytes. The `assert magic == MAGIC` there is the only magic
  check, so `parse(ByteBuffer)` does not check the magic and neither does the
  model.
- The content handler is assumed to accept every call. A `SAXException` it
  throws, or the `NullPointerException` of a reader with no handler set,
  would abort the Java parse; the model does not raise either.
- The SAX getters and setters (`378-434`) and the entity resolver, DTD
  handler and error handler are left out. The content handler is modelled as
  the list of calls made on it. Each attribute's SAX type is always "CDATA"
  and is not stored.
- The text of `Float.toString` and of `String.format("%.2f%%", ...)` is not
  modelled. These are parameters of `Runtime`, applied to the float's bit
  pattern. Whether `assert` statements are enabled is a parameter too.
- `new String(bytes, UTF_16LE)` is modelled as the sequence of code units,
  without replacing unpaired surrogates.
- Decoding into Unicode characters, `src/cc/whohow/android/ApkInputSource.java` and
  `test/cc/whohow/android/Test.java` are not part of this model.
- The reader's state after an exception is not specified. Java leaves the
  partly updated pool and the buffer position behind, but every exception
  ends the parse.
- A huge `stringCount` whose `int[]` the JVM cannot allocate raises
  `OutOfMemoryError` in Java. The model reports a `BufferUnderflowException`
  instead, which Java would raise once the table reads past the limit.
- Reader.ManifestReader.Parse: non-termination is not modelled as such. When
  a round starts at a position an earlier round started at, the Java loop
  never returns normally; the model returns `Cycle` there instead. Where the
  cycle passes no string chunk that adds strings, Java loops forever. Where it
  passes a string chunk with a positive `stringCount`, every lap adds to the
  pool's list, and Java ends with `OutOfMemoryError` once memory runs out.
  `Loop.CycleRunsForever` and `Loop.DecodeIsLoop` prove that every number of
  rounds then succeeds.
- The buffer's limit is the end of the byte sequence, and its start is
  position 0. Slices with other offsets are not modelled.
- Reader.ManifestReader.ParseStrings: its contract does not state where the
  buffer's position ends up after the string loop. `parseStringChunk` seeks to
  the chunk's declared end right afterwards
  (`src/cc/whohow/android/AndroidManifestReader.java:229`), so nothing reads
  that position.
- Reader.ManifestReader.AppendEach: likewise, its contract does not state the
  position after the last string; the position is never read before that seek.
- Jvm.Lit: its contract gives only the length of a literal's code units, not
  each unit.
- The model follows the code in three behaviours a reader of the format might
  not expect:
  - a URI that no namespace chunk bound gives the qualified name
    "null:" + local name;
  - only the string and resource-id chunks seek by their declared size;
    every other chunk resumes right after the fields it reads;
  - an unknown chunk type with assertions disabled leaves the position where
    it was, so the loop never ends (`Cycle`).
