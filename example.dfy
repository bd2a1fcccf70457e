/**
 * A whole document decoded: the smallest manifest with a namespace and one
 * element in it, laid out chunk by chunk, and what `parse(ByteBuffer)`
 * reports for it.
 */
module Example {
  import opened Wrappers
  import opened Jvm
  import opened Buffer
  import opened Names
  import opened Chunks

  /** Every word of the run is a Java `int`. */
  predicate IntWords(ws: seq<int>) {
    forall i | 0 <= i < |ws| :: IsInt32(ws[i])
  }

  /** Java `int` words written little-endian, one after another. */
  function Words(ws: seq<int>): (r: seq<Byte>)
    requires IntWords(ws)
    ensures |r| == 4 * |ws|
  {
    if ws == [] then [] else Le32(ws[0]) + Words(ws[1..])
  }

  /** Word k of a run of words is read back where it was written. */
  lemma {:induction false} WordsAt(before: seq<Byte>, ws: seq<int>, after: seq<Byte>, k: nat)
    requires IntWords(ws)
    requires k < |ws|
    ensures |before| + 4 * k + 4 <= |before + Words(ws) + after|
    ensures I32At(before + Words(ws) + after, |before| + 4 * k) == ws[k]
    decreases k
  {
    var rest := Words(ws[1..]) + after;
    assert before + Words(ws) + after == before + Le32(ws[0]) + rest;
    if k == 0 {
      I32RoundTrip(before, ws[0], rest);
    } else {
      WordsAt(before + Le32(ws[0]), ws[1..], after, k - 1);
      assert ws[1..][k - 1] == ws[k];
    }
  }

  const A: Units := [0x61]
  const U: Units := [0x75]
  const M: Units := [0x6D]

  /** The file header: the magic number and the file size. */
  const HEADER: seq<int> := [0x0008_0003, 174]

  /**
   * The string chunk's header and offset table: 58 bytes long, three
   * strings, their data 40 bytes in, each string 6 bytes after the last.
   */
  const STRING_HEAD: seq<int> := [CHUNK_STRING, 58, 3, 0, 0, 40, 0, 0, 6, 12]

  /** Bind the prefix "a" (string 0) to the URI "u" (string 1). */
  const START_NS: seq<int> := [CHUNK_START_NAMESPACE, 24, 1, -1, 0, 1]

  /** Open the element "m" (string 2) in the URI "u", with no attributes. */
  const START_TAG: seq<int> := [CHUNK_START_TAG, 36, 1, -1, 1, 2, 0x0014_0014, 0, 0]

  /** Close the element "m" in the URI "u". */
  const END_TAG: seq<int> := [CHUNK_END_TAG, 24, 1, -1, 1, 2]

  /** End the scope of the prefix "a". */
  const END_NS: seq<int> := [CHUNK_END_NAMESPACE, 24, 1, -1, 0, 1]

  /** The string data of the string chunk: "a", "u" and "m", each with a zero terminator. */
  function PoolBytes(): (r: seq<Byte>)
    ensures |r| == 18
  {
    EncodedString(A, [0, 0]) + EncodedString(U, [0, 0]) + EncodedString(M, [0, 0])
  }

  /** The whole 174-byte document. */
  function Manifest(): (r: seq<Byte>)
    ensures |r| == 174
  {
    Words(HEADER) + Words(STRING_HEAD) + PoolBytes()
      + Words(START_NS) + Words(START_TAG) + Words(END_TAG) + Words(END_NS)
  }

  /** The qualified name of "m" once "u" is bound to "a". */
  const QNAME: Units := A + [COLON] + M

  /** The string loop reads the string at the first offset, then goes on with the rest. */
  lemma AppendStringsCons(bytes: seq<Byte>, base: int, offset: int, offsets: seq<int>, pool: seq<Units>, s: Units)
    requires StringAt(bytes, Wrap32(base + offset)) == Ok(s)
    ensures AppendStrings(bytes, base, [offset] + offsets, pool) == AppendStrings(bytes, base, offsets, pool + [s])
  {
    assert ([offset] + offsets)[1..] == offsets;
  }

  /** The string data 48 bytes in reads as "a", "u" and "m" at offsets 0, 6 and 12. */
  lemma PoolStrings(head: seq<Byte>, after: seq<Byte>)
    requires |head| == 48
    ensures AppendStrings(head + PoolBytes() + after, 48, [0, 6, 12], []) == Ok([A, U, M])
  {
    var bytes := head + PoolBytes() + after;
    var sa := EncodedString(A, [0, 0]);
    var su := EncodedString(U, [0, 0]);
    var sm := EncodedString(M, [0, 0]);
    assert bytes == head + sa + (su + sm + after);
    StringRoundTrip(head, A, [0, 0], su + sm + after);
    assert bytes == (head + sa) + su + (sm + after);
    StringRoundTrip(head + sa, U, [0, 0], sm + after);
    assert bytes == (head + sa + su) + sm + after;
    StringRoundTrip(head + sa + su, M, [0, 0], after);
    AppendStringsCons(bytes, 48, 0, [6, 12], [], A);
    AppendStringsCons(bytes, 48, 6, [12], [A], U);
    AppendStringsCons(bytes, 48, 12, [], [A, U], M);
    assert [0, 6, 12] == [0] + [6, 12] && [6, 12] == [6] + [12] && [12] == [12] + [];
    assert [] + [A] == [A] && [A] + [U] == [A, U] && [A, U] + [M] == [A, U, M];
  }

  /**
   * A string chunk 8 bytes in, 58 bytes long, with three strings whose data
   * starts 40 bytes in at offsets 0, 6 and 12, fills the empty pool with
   * "a", "u" and "m".
   */
  lemma StringStep(before: seq<Byte>, ws: seq<int>, after: seq<Byte>, rt: Runtime)
    requires |before| == 8 && |ws| == 10 && IntWords(ws)
    requires ws[0] == CHUNK_STRING && ws[1] == 58 && ws[2] == 3 && ws[5] == 40
    requires ws[7] == 0 && ws[8] == 6 && ws[9] == 12
    ensures Chunk(before + Words(ws) + PoolBytes() + after, 8, ReaderState([], map[], []), rt)
      == Ok(Step(ReaderState([A, U, M], map[], []), 66))
  {
    var bytes := before + Words(ws) + PoolBytes() + after;
    var tail := PoolBytes() + after;
    assert bytes == before + Words(ws) + tail;
    WordsAt(before, ws, tail, 0);
    WordsAt(before, ws, tail, 1);
    WordsAt(before, ws, tail, 2);
    WordsAt(before, ws, tail, 5);
    WordsAt(before, ws, tail, 7);
    WordsAt(before, ws, tail, 8);
    WordsAt(before, ws, tail, 9);
    assert Int32Table(bytes, 36, 3) == [0, 6, 12];
    PoolStrings(before + Words(ws), after);
    assert ChunkStrings(bytes, 8, []) == Ok([A, U, M]);
  }

  /** A start-namespace chunk binding string 0 to string 1 binds "u" to "a" and reports it. */
  lemma StartNamespaceStep(before: seq<Byte>, ws: seq<int>, after: seq<Byte>, st: ReaderState, rt: Runtime)
    requires |ws| == 6 && IntWords(ws)
    requires ws[0] == CHUNK_START_NAMESPACE && ws[4] == 0 && ws[5] == 1
    requires st.pool == [A, U, M]
    ensures Chunk(before + Words(ws) + after, |before|, st, rt)
      == Ok(Step(st.(mapping := st.mapping[Some(U) := Some(A)],
                     events := st.events + [StartPrefix(Some(A), Some(U))]), |before| + 24))
  {
    WordsAt(before, ws, after, 0);
    WordsAt(before, ws, after, 4);
    WordsAt(before, ws, after, 5);
  }

  /** A start tag for string 2 in string 1, with no attributes, reports "m" in "u" as "a:m". */
  lemma StartTagStep(before: seq<Byte>, ws: seq<int>, after: seq<Byte>, st: ReaderState, rt: Runtime)
    requires |ws| == 9 && IntWords(ws)
    requires ws[0] == CHUNK_START_TAG && ws[4] == 1 && ws[5] == 2 && ws[7] == 0
    requires st.pool == [A, U, M] && st.mapping == map[Some(U) := Some(A)]
    ensures Chunk(before + Words(ws) + after, |before|, st, rt)
      == Ok(Step(st.(events := st.events + [StartElement(U, Some(M), Some(QNAME), [])]), |before| + 36))
  {
    var bytes := before + Words(ws) + after;
    var p := |before|;
    WordsAt(before, ws, after, 0);
    WordsAt(before, ws, after, 4);
    WordsAt(before, ws, after, 5);
    WordsAt(before, ws, after, 7);
    assert AttributeList(bytes, p + 36, 0, 0, st.pool, st.mapping, rt, []) == Ok(AttributeRun([], p + 36));
    assert QName(st.mapping, U, Some(M)) == Some(QNAME);
  }

  /** An end tag for string 2 in string 1 reports the end of "m" with the same names. */
  lemma EndTagStep(before: seq<Byte>, ws: seq<int>, after: seq<Byte>, st: ReaderState, rt: Runtime)
    requires |ws| == 6 && IntWords(ws)
    requires ws[0] == CHUNK_END_TAG && ws[4] == 1 && ws[5] == 2
    requires st.pool == [A, U, M] && st.mapping == map[Some(U) := Some(A)]
    ensures Chunk(before + Words(ws) + after, |before|, st, rt)
      == Ok(Step(st.(events := st.events + [EndElement(U, Some(M), Some(QNAME))]), |before| + 24))
  {
    WordsAt(before, ws, after, 0);
    WordsAt(before, ws, after, 4);
    WordsAt(before, ws, after, 5);
    assert QName(st.mapping, U, Some(M)) == Some(QNAME);
  }

  /** An end-namespace chunk for string 0 reports the end of "a" and keeps the binding. */
  lemma EndNamespaceStep(before: seq<Byte>, ws: seq<int>, after: seq<Byte>, st: ReaderState, rt: Runtime)
    requires |ws| == 6 && IntWords(ws)
    requires ws[0] == CHUNK_END_NAMESPACE && ws[4] == 0
    requires st.pool == [A, U, M]
    ensures Chunk(before + Words(ws) + after, |before|, st, rt)
      == Ok(Step(st.(events := st.events + [EndPrefix(Some(A))]), |before| + 24))
  {
    WordsAt(before, ws, after, 0);
    WordsAt(before, ws, after, 4);
  }

  /** One round of the loop from a position it has not started at before. */
  lemma DecodeStep(bytes: seq<Byte>, p: int, st: ReaderState, rt: Runtime, visited: set<int>, next: Step)
    requires 0 <= p < |bytes| && p !in visited
    requires Chunk(bytes, p, st, rt) == Ok(next)
    ensures 0 <= next.pos <= |bytes|
    ensures Decode(bytes, p, st, rt, visited) == Decode(bytes, next.pos, next.state, rt, visited + {p})
  {
  }

  /** The ways the document's seven parts are grouped around each chunk. */
  lemma Regroup<T>(a: seq<T>, b: seq<T>, c: seq<T>, d: seq<T>, e: seq<T>, f: seq<T>, g: seq<T>)
    ensures a + b + c + d + e + f + g == a + b + c + (d + e + f + g)
    ensures a + b + c + d + e + f + g == (a + (b + c)) + d + (e + f + g)
    ensures a + b + c + d + e + f + g == (a + (b + c) + d) + e + (f + g)
    ensures a + b + c + d + e + f + g == (a + (b + c) + d + e) + f + g
    ensures a + b + c + d + e + f + g == (a + (b + c) + d + e + f) + g + []
  {
  }

  /** Five rounds that each succeed, ending exactly at the end of the bytes, are the whole parse. */
  lemma FiveRounds(bytes: seq<Byte>, rt: Runtime, st0: ReaderState, st1: ReaderState, st2: ReaderState,
                   st3: ReaderState, st4: ReaderState, st5: ReaderState)
    requires |bytes| == 174
    requires Chunk(bytes, 8, st0, rt) == Ok(Step(st1, 66))
    requires Chunk(bytes, 66, st1, rt) == Ok(Step(st2, 90))
    requires Chunk(bytes, 90, st2, rt) == Ok(Step(st3, 126))
    requires Chunk(bytes, 126, st3, rt) == Ok(Step(st4, 150))
    requires Chunk(bytes, 150, st4, rt) == Ok(Step(st5, 174))
    ensures ParseBuffer(bytes, 0, st0, rt) == Ok(st5)
  {
    var v0: set<int> := {};
    DecodeStep(bytes, 8, st0, rt, v0, Step(st1, 66));
    DecodeStep(bytes, 66, st1, rt, v0 + {8}, Step(st2, 90));
    DecodeStep(bytes, 90, st2, rt, v0 + {8} + {66}, Step(st3, 126));
    DecodeStep(bytes, 126, st3, rt, v0 + {8} + {66} + {90}, Step(st4, 150));
    DecodeStep(bytes, 150, st4, rt, v0 + {8} + {66} + {90} + {126}, Step(st5, 174));
  }

  const START_PREFIX: Event := StartPrefix(Some(A), Some(U))
  const START_ELEMENT: Event := StartElement(U, Some(M), Some(QNAME), [])
  const END_ELEMENT: Event := EndElement(U, Some(M), Some(QNAME))
  const END_PREFIX: Event := EndPrefix(Some(A))

  /** The binding of "u" to "a" made by the start-namespace chunk. */
  const BINDING: PrefixMap := map[Some(U) := Some(A)]

  /** The reader's state before the first chunk and after each of the five. */
  const S0: ReaderState := ReaderState([], map[], [])
  const S1: ReaderState := ReaderState([A, U, M], map[], [])
  const S2: ReaderState := ReaderState([A, U, M], BINDING, [START_PREFIX])
  const S3: ReaderState := ReaderState([A, U, M], BINDING, [START_PREFIX, START_ELEMENT])
  const S4: ReaderState := ReaderState([A, U, M], BINDING, [START_PREFIX, START_ELEMENT, END_ELEMENT])
  const S5: ReaderState := ReaderState([A, U, M], BINDING, [START_PREFIX, START_ELEMENT, END_ELEMENT, END_PREFIX])

  /** The word runs of a document laid out as the minimal manifest have its lengths. */
  predicate Shapes(h: seq<int>, s: seq<int>, n1: seq<int>, t1: seq<int>, t2: seq<int>, n2: seq<int>) {
    && |h| == 2 && IntWords(h) && |s| == 10 && IntWords(s)
    && |n1| == 6 && IntWords(n1) && |t1| == 9 && IntWords(t1)
    && |t2| == 6 && IntWords(t2) && |n2| == 6 && IntWords(n2)
  }

  /** The header, the string chunk, the string data and the four tree chunks, in that order. */
  function Document(h: seq<int>, s: seq<int>, n1: seq<int>, t1: seq<int>, t2: seq<int>, n2: seq<int>): (r: seq<Byte>)
    requires Shapes(h, s, n1, t1, t2, n2)
    ensures |r| == 174
  {
    Words(h) + Words(s) + PoolBytes() + Words(n1) + Words(t1) + Words(t2) + Words(n2)
  }

  lemma FirstRound(h: seq<int>, s: seq<int>, n1: seq<int>, t1: seq<int>, t2: seq<int>, n2: seq<int>, rt: Runtime)
    requires Shapes(h, s, n1, t1, t2, n2)
    requires s[0] == CHUNK_STRING && s[1] == 58 && s[2] == 3 && s[5] == 40 && s[7] == 0 && s[8] == 6 && s[9] == 12
    ensures Chunk(Document(h, s, n1, t1, t2, n2), 8, S0, rt) == Ok(Step(S1, 66))
  {
    var hb, sb, pb := Words(h), Words(s), PoolBytes();
    var n1b, t1b, t2b, n2b := Words(n1), Words(t1), Words(t2), Words(n2);
    Regroup(hb, sb, pb, n1b, t1b, t2b, n2b);
    StringStep(hb, s, n1b + t1b + t2b + n2b, rt);
  }

  lemma SecondRound(h: seq<int>, s: seq<int>, n1: seq<int>, t1: seq<int>, t2: seq<int>, n2: seq<int>, rt: Runtime)
    requires Shapes(h, s, n1, t1, t2, n2)
    requires n1[0] == CHUNK_START_NAMESPACE && n1[4] == 0 && n1[5] == 1
    ensures Chunk(Document(h, s, n1, t1, t2, n2), 66, S1, rt) == Ok(Step(S2, 90))
  {
    var hb, sb, pb := Words(h), Words(s), PoolBytes();
    var n1b, t1b, t2b, n2b := Words(n1), Words(t1), Words(t2), Words(n2);
    Regroup(hb, sb, pb, n1b, t1b, t2b, n2b);
    StartNamespaceStep(hb + (sb + pb), n1, t1b + t2b + n2b, S1, rt);
    assert S1.events + [START_PREFIX] == S2.events;
  }

  lemma ThirdRound(h: seq<int>, s: seq<int>, n1: seq<int>, t1: seq<int>, t2: seq<int>, n2: seq<int>, rt: Runtime)
    requires Shapes(h, s, n1, t1, t2, n2)
    requires t1[0] == CHUNK_START_TAG && t1[4] == 1 && t1[5] == 2 && t1[7] == 0
    ensures Chunk(Document(h, s, n1, t1, t2, n2), 90, S2, rt) == Ok(Step(S3, 126))
  {
    var hb, sb, pb := Words(h), Words(s), PoolBytes();
    var n1b, t1b, t2b, n2b := Words(n1), Words(t1), Words(t2), Words(n2);
    Regroup(hb, sb, pb, n1b, t1b, t2b, n2b);
    StartTagStep(hb + (sb + pb) + n1b, t1, t2b + n2b, S2, rt);
    assert S2.events + [START_ELEMENT] == S3.events;
  }

  lemma FourthRound(h: seq<int>, s: seq<int>, n1: seq<int>, t1: seq<int>, t2: seq<int>, n2: seq<int>, rt: Runtime)
    requires Shapes(h, s, n1, t1, t2, n2)
    requires t2[0] == CHUNK_END_TAG && t2[4] == 1 && t2[5] == 2
    ensures Chunk(Document(h, s, n1, t1, t2, n2), 126, S3, rt) == Ok(Step(S4, 150))
  {
    var hb, sb, pb := Words(h), Words(s), PoolBytes();
    var n1b, t1b, t2b, n2b := Words(n1), Words(t1), Words(t2), Words(n2);
    Regroup(hb, sb, pb, n1b, t1b, t2b, n2b);
    EndTagStep(hb + (sb + pb) + n1b + t1b, t2, n2b, S3, rt);
    assert S3.events + [END_ELEMENT] == S4.events;
  }

  lemma FifthRound(h: seq<int>, s: seq<int>, n1: seq<int>, t1: seq<int>, t2: seq<int>, n2: seq<int>, rt: Runtime)
    requires Shapes(h, s, n1, t1, t2, n2)
    requires n2[0] == CHUNK_END_NAMESPACE && n2[4] == 0
    ensures Chunk(Document(h, s, n1, t1, t2, n2), 150, S4, rt) == Ok(Step(S5, 174))
  {
    var hb, sb, pb := Words(h), Words(s), PoolBytes();
    var n1b, t1b, t2b, n2b := Words(n1), Words(t1), Words(t2), Words(n2);
    Regroup(hb, sb, pb, n1b, t1b, t2b, n2b);
    EndNamespaceStep(hb + (sb + pb) + n1b + t1b + t2b, n2, [], S4, rt);
    assert S4.events + [END_PREFIX] == S5.events;
  }

  /**
   * Any document laid out as the minimal manifest is, whatever its unread
   * words hold, decodes to the pool "a", "u", "m", the binding of "u" to "a",
   * and the calls startPrefixMapping, startElement, endElement and
   * endPrefixMapping, in that order.
   */
  lemma DocumentDecodes(h: seq<int>, s: seq<int>, n1: seq<int>, t1: seq<int>, t2: seq<int>, n2: seq<int>, rt: Runtime)
    requires Shapes(h, s, n1, t1, t2, n2)
    requires s[0] == CHUNK_STRING && s[1] == 58 && s[2] == 3 && s[5] == 40 && s[7] == 0 && s[8] == 6 && s[9] == 12
    requires n1[0] == CHUNK_START_NAMESPACE && n1[4] == 0 && n1[5] == 1
    requires t1[0] == CHUNK_START_TAG && t1[4] == 1 && t1[5] == 2 && t1[7] == 0
    requires t2[0] == CHUNK_END_TAG && t2[4] == 1 && t2[5] == 2
    requires n2[0] == CHUNK_END_NAMESPACE && n2[4] == 0
    ensures ParseBuffer(Document(h, s, n1, t1, t2, n2), 0, S0, rt) == Ok(S5)
  {
    FirstRound(h, s, n1, t1, t2, n2, rt);
    SecondRound(h, s, n1, t1, t2, n2, rt);
    ThirdRound(h, s, n1, t1, t2, n2, rt);
    FourthRound(h, s, n1, t1, t2, n2, rt);
    FifthRound(h, s, n1, t1, t2, n2, rt);
    FiveRounds(Document(h, s, n1, t1, t2, n2), rt, S0, S1, S2, S3, S4, S5);
  }

  /** The 174-byte minimal manifest decodes as `DocumentDecodes` describes. */
  lemma MinimalManifest(rt: Runtime)
    ensures ParseBuffer(Manifest(), 0, ReaderState([], map[], []), rt)
      == Ok(ReaderState([A, U, M], map[Some(U) := Some(A)],
                        [StartPrefix(Some(A), Some(U)),
                         StartElement(U, Some(M), Some(QNAME), []),
                         EndElement(U, Some(M), Some(QNAME)),
                         EndPrefix(Some(A))]))
  {
    DocumentDecodes(HEADER, STRING_HEAD, START_NS, START_TAG, END_TAG, END_NS, rt);
  }
}
