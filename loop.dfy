/**
 * The dispatch loop of `parse(ByteBuffer)` round by round, and the proof
 * that `Decode` reports exactly what the loop does: `Ok` when the loop runs
 * out of bytes after some number of rounds, the exception of the round that
 * throws, and `Cycle` only when every number of rounds succeeds, so that the
 * loop never leaves.
 */
module Loop {
  import opened Wrappers
  import opened Jvm
  import opened Buffer
  import opened Names
  import opened Chunks

  /**
   * `n` rounds of the loop body from `p`. A round at the end of the bytes
   * fails (its peek underflows), so `Ok` means the loop ran all `n` rounds.
   */
  function Rounds(bytes: seq<Byte>, p: int, st: ReaderState, rt: Runtime, n: nat): (r: Outcome<Step>)
    requires 0 <= p <= |bytes|
    ensures r.Ok? ==> 0 <= r.value.pos <= |bytes| && Extends(st, r.value.state)
    ensures r.Ok? && n > 0 ==> p < |bytes|
    decreases n
  {
    if n == 0 then Ok(Step(st, p))
    else
      var step :- Chunk(bytes, p, st, rt);
      Rounds(bytes, step.pos, step.state, rt, n - 1)
  }

  /** Running `a` rounds and then `b` more is running `a + b` rounds. */
  lemma {:induction false} RoundsSplit(bytes: seq<Byte>, p: int, st: ReaderState, rt: Runtime, a: nat, b: nat)
    requires 0 <= p <= |bytes|
    requires Rounds(bytes, p, st, rt, a).Ok?
    decreases a
    ensures var mid := Rounds(bytes, p, st, rt, a).value;
      Rounds(bytes, p, st, rt, a + b) == Rounds(bytes, mid.pos, mid.state, rt, b)
  {
    if a > 0 {
      var step := Chunk(bytes, p, st, rt).value;
      RoundsSplit(bytes, step.pos, step.state, rt, a - 1, b);
    }
  }

  /** Fewer rounds than a run that succeeds succeed too. */
  lemma {:induction false} RoundsPrefix(bytes: seq<Byte>, p: int, st: ReaderState, rt: Runtime, n: nat, m: nat)
    requires 0 <= p <= |bytes| && m <= n
    requires Rounds(bytes, p, st, rt, n).Ok?
    ensures Rounds(bytes, p, st, rt, m).Ok?
    decreases m
  {
    if m > 0 {
      var step := Chunk(bytes, p, st, rt).value;
      RoundsPrefix(bytes, step.pos, step.state, rt, n - 1, m - 1);
    }
  }

  // ---------------------------------------------------------------------
  // Whether a round succeeds, and where it ends, depends on the bytes and
  // on the pool's length only; a longer pool never makes a lookup fail.

  lemma {:induction false} AppendStringsStable(bytes: seq<Byte>, base: int, offsets: seq<int>,
                                              pool: seq<Units>, pool': seq<Units>)
    requires AppendStrings(bytes, base, offsets, pool).Ok?
    ensures AppendStrings(bytes, base, offsets, pool').Ok?
    decreases |offsets|
  {
    if offsets != [] {
      var s := StringAt(bytes, Wrap32(base + offsets[0])).value;
      AppendStringsStable(bytes, base, offsets[1..], pool + [s], pool' + [s]);
    }
  }

  lemma AttributeAtStable(bytes: seq<Byte>, q: int, pool: seq<Units>, mapping: PrefixMap,
                          pool': seq<Units>, mapping': PrefixMap, rt: Runtime)
    requires 0 <= q && q + 20 <= |bytes|
    requires AttributeAt(bytes, q, pool, mapping, rt).Ok? && |pool| <= |pool'|
    ensures AttributeAt(bytes, q, pool', mapping', rt).Ok?
  {
  }

  lemma {:induction false} AttributeListStable(bytes: seq<Byte>, base: int, count: int, i: nat,
                                              pool: seq<Units>, mapping: PrefixMap, acc: seq<Attribute>,
                                              pool': seq<Units>, mapping': PrefixMap, acc': seq<Attribute>, rt: Runtime)
    requires 0 <= base && RecordPos(base, i) <= |bytes|
    requires AttributeList(bytes, base, count, i, pool, mapping, rt, acc).Ok? && |pool| <= |pool'|
    ensures AttributeList(bytes, base, count, i, pool', mapping', rt, acc').Ok?
    decreases count - i
  {
    if i < count {
      AttributeListStep(bytes, base, count, i, pool, mapping, rt, acc);
      var q := RecordPos(base, i);
      AttributeAtStable(bytes, q, pool, mapping, pool', mapping', rt);
      var a := AttributeAt(bytes, q, pool, mapping, rt).value;
      var a' := AttributeAt(bytes, q, pool', mapping', rt).value;
      AttributeListStable(bytes, base, count, i + 1, pool, mapping, acc + [a], pool', mapping', acc' + [a'], rt);
      AttributeListCons(bytes, base, count, i, pool', mapping', rt, acc');
    }
  }

  /** A string chunk that decodes against one pool decodes against any longer one, adding as many strings. */
  lemma StringChunkStable(bytes: seq<Byte>, p: int, st: ReaderState, st': ReaderState)
    requires 0 <= p <= |bytes|
    requires StringChunk(bytes, p, st).Ok? && |st.pool| <= |st'.pool|
    ensures StringChunk(bytes, p, st').Ok?
    ensures var r := StringChunk(bytes, p, st).value;
      var r' := StringChunk(bytes, p, st').value;
      r'.pos == r.pos && |r.state.pool| - |st.pool| == |r'.state.pool| - |st'.pool|
  {
    var n := I32At(bytes, p + 8);
    var offsets := Int32Table(bytes, p + 28, n);
    AppendStringsStable(bytes, Wrap32(p + I32At(bytes, p + 20)), offsets, st.pool, st'.pool);
    ChunkStringsAppends(bytes, p, st.pool);
    ChunkStringsAppends(bytes, p, st'.pool);
  }

  /** A start tag that decodes against one pool decodes against any longer one and ends at the same position. */
  lemma StartTagStable(bytes: seq<Byte>, p: int, st: ReaderState, st': ReaderState, rt: Runtime)
    requires 0 <= p <= |bytes|
    requires StartTagChunk(bytes, p, st, rt).Ok? && |st.pool| <= |st'.pool|
    ensures StartTagChunk(bytes, p, st', rt).Ok?
  {
    AttributeListStable(bytes, p + 36, I32At(bytes, p + 28), 0, st.pool, st.mapping, [], st'.pool, st'.mapping, [], rt);
  }

  /**
   * A round that succeeds from one state succeeds from any state whose pool
   * is at least as long, ends at the same position and adds as many strings.
   */
  lemma ChunkStable(bytes: seq<Byte>, p: int, st: ReaderState, st': ReaderState, rt: Runtime)
    requires 0 <= p <= |bytes|
    requires Chunk(bytes, p, st, rt).Ok? && |st.pool| <= |st'.pool|
    ensures Chunk(bytes, p, st', rt).Ok?
    ensures var r := Chunk(bytes, p, st, rt).value;
      var r' := Chunk(bytes, p, st', rt).value;
      r'.pos == r.pos && |r.state.pool| - |st.pool| == |r'.state.pool| - |st'.pool|
  {
    var chunkType := I32At(bytes, p);
    if chunkType == CHUNK_STRING {
      StringChunkStable(bytes, p, st, st');
    } else if chunkType == CHUNK_START_TAG {
      StartTagStable(bytes, p, st, st', rt);
    }
  }

  /** `n` rounds that succeed from one state succeed from any state with a pool at least as long. */
  lemma {:induction false} RoundsStable(bytes: seq<Byte>, p: int, st: ReaderState, st': ReaderState, rt: Runtime, n: nat)
    requires 0 <= p <= |bytes|
    requires Rounds(bytes, p, st, rt, n).Ok? && |st.pool| <= |st'.pool|
    ensures Rounds(bytes, p, st', rt, n).Ok?
    ensures var r := Rounds(bytes, p, st, rt, n).value;
      var r' := Rounds(bytes, p, st', rt, n).value;
      r'.pos == r.pos && |r.state.pool| <= |r'.state.pool|
    decreases n
  {
    if n > 0 {
      ChunkStable(bytes, p, st, st', rt);
      var step := Chunk(bytes, p, st, rt).value;
      var step' := Chunk(bytes, p, st', rt).value;
      RoundsStable(bytes, step.pos, step.state, step'.state, rt, n - 1);
    }
  }

  /**
   * Once some rounds lead from `p` back to `p`, every number of rounds from
   * `p` succeeds, from any state with a pool at least as long: the loop
   * never leaves.
   */
  lemma {:induction false} CycleRunsForever(bytes: seq<Byte>, p: int, st: ReaderState, rt: Runtime, n: nat,
                                           st': ReaderState, m: nat)
    requires 0 <= p <= |bytes| && 0 < n
    requires Rounds(bytes, p, st, rt, n).Ok? && Rounds(bytes, p, st, rt, n).value.pos == p
    requires |st.pool| <= |st'.pool|
    ensures Rounds(bytes, p, st', rt, m).Ok?
    decreases m
  {
    if m <= n {
      RoundsPrefix(bytes, p, st, rt, n, m);
      RoundsStable(bytes, p, st, st', rt, m);
    } else {
      RoundsStable(bytes, p, st, st', rt, n);
      var mid := Rounds(bytes, p, st', rt, n).value;
      RoundsSplit(bytes, p, st', rt, n, m - n);
      CycleRunsForever(bytes, p, st, rt, n, mid.state, m - n);
    }
  }

  /** Some rounds lead from `v`, left with a pool no longer than `st`'s, to `p` with state `st`. */
  ghost predicate ReachedFrom(bytes: seq<Byte>, v: int, st: ReaderState, p: int, rt: Runtime) {
    exists n: nat, sv: ReaderState ::
      && 0 <= v <= |bytes| && 0 < n && |sv.pool| <= |st.pool|
      && Rounds(bytes, v, sv, rt, n) == Ok(Step(st, p))
  }

  /** Every start position in `visited` was left some rounds ago, and those rounds led here. */
  ghost predicate History(bytes: seq<Byte>, p: int, st: ReaderState, rt: Runtime, visited: set<int>) {
    forall v | v in visited :: ReachedFrom(bytes, v, st, p, rt)
  }

  /** Rounds that lead from `v` to `p` are a witness of `ReachedFrom`. */
  lemma ReachedFromIntro(bytes: seq<Byte>, v: int, sv: ReaderState, n: nat, st: ReaderState, p: int, rt: Runtime)
    requires 0 <= v <= |bytes| && 0 < n && |sv.pool| <= |st.pool|
    requires Rounds(bytes, v, sv, rt, n) == Ok(Step(st, p))
    ensures ReachedFrom(bytes, v, st, p, rt)
  {
  }

  /** One more round extends the rounds that led here. */
  lemma ReachedFromStep(bytes: seq<Byte>, v: int, st: ReaderState, p: int, rt: Runtime)
    requires 0 <= p <= |bytes|
    requires ReachedFrom(bytes, v, st, p, rt) && Chunk(bytes, p, st, rt).Ok?
    ensures var step := Chunk(bytes, p, st, rt).value;
      ReachedFrom(bytes, v, step.state, step.pos, rt)
  {
    var step := Chunk(bytes, p, st, rt).value;
    var n: nat, sv: ReaderState :| && 0 <= v <= |bytes| && 0 < n && |sv.pool| <= |st.pool|
                                    && Rounds(bytes, v, sv, rt, n) == Ok(Step(st, p));
    RoundsSnoc(bytes, v, sv, rt, n, st, p);
    ReachedFromIntro(bytes, v, sv, n + 1, step.state, step.pos, rt);
  }

  /** Rounds that end at `p` with state `st`, followed by the round at `p`. */
  lemma RoundsSnoc(bytes: seq<Byte>, v: int, sv: ReaderState, rt: Runtime, n: nat, st: ReaderState, p: int)
    requires 0 <= v <= |bytes| && 0 <= p <= |bytes|
    requires Rounds(bytes, v, sv, rt, n) == Ok(Step(st, p)) && Chunk(bytes, p, st, rt).Ok?
    ensures Rounds(bytes, v, sv, rt, n + 1) == Chunk(bytes, p, st, rt)
  {
    RoundsSplit(bytes, v, sv, rt, n, 1);
    RoundsOne(bytes, p, st, rt);
  }

  /** One round is the chunk decoder at the position. */
  lemma RoundsOne(bytes: seq<Byte>, p: int, st: ReaderState, rt: Runtime)
    requires 0 <= p <= |bytes|
    requires Chunk(bytes, p, st, rt).Ok?
    ensures Rounds(bytes, p, st, rt, 1) == Ok(Chunk(bytes, p, st, rt).value)
  {
    var step := Chunk(bytes, p, st, rt).value;
    assert Rounds(bytes, step.pos, step.state, rt, 0) == Ok(Step(step.state, step.pos));
  }

  /** After a round from `p`, the rounds from every visited position and from `p` lead to the new state. */
  lemma HistoryStep(bytes: seq<Byte>, p: int, st: ReaderState, rt: Runtime, visited: set<int>)
    requires 0 <= p < |bytes|
    requires History(bytes, p, st, rt, visited) && Chunk(bytes, p, st, rt).Ok?
    ensures var step := Chunk(bytes, p, st, rt).value;
      History(bytes, step.pos, step.state, rt, visited + {p})
  {
    var step := Chunk(bytes, p, st, rt).value;
    assert Rounds(bytes, p, st, rt, 1) == Ok(step);
    assert ReachedFrom(bytes, p, step.state, step.pos, rt);
    forall v | v in visited
      ensures ReachedFrom(bytes, v, step.state, step.pos, rt)
    {
      ReachedFromStep(bytes, v, st, p, rt);
    }
  }

  /**
   * What the loop does from `p`: `Ok` is the state after the rounds that
   * reach the end of the bytes, any other failure is the exception thrown by
   * the round after those that succeed, and `Cycle` means every number of
   * rounds succeeds.
   */
  ghost predicate IsLoopResult(bytes: seq<Byte>, p: int, st: ReaderState, rt: Runtime, d: Outcome<ReaderState>)
    requires 0 <= p <= |bytes|
  {
    && (d.Ok? ==> exists m: nat :: Rounds(bytes, p, st, rt, m) == Ok(Step(d.value, |bytes|)))
    && (d.Err? && d.error != Cycle ==>
          exists m: nat :: && Rounds(bytes, p, st, rt, m).Ok?
                           && Rounds(bytes, p, st, rt, m).value.pos < |bytes|
                           && Rounds(bytes, p, st, rt, m + 1) == Err(d.error))
    && (d == Err(Cycle) ==> forall m: nat :: Rounds(bytes, p, st, rt, m).Ok?)
  }

  /** `Decode` is the loop. */
  lemma {:induction false} DecodeIsLoop(bytes: seq<Byte>, p: int, st: ReaderState, rt: Runtime, visited: set<int>)
    requires 0 <= p <= |bytes|
    requires History(bytes, p, st, rt, visited)
    ensures IsLoopResult(bytes, p, st, rt, Decode(bytes, p, st, rt, visited))
    decreases Unvisited(|bytes|, visited)
  {
    var d := Decode(bytes, p, st, rt, visited);
    if p == |bytes| {
      assert Rounds(bytes, p, st, rt, 0) == Ok(Step(st, |bytes|));
    } else if p in visited {
      assert ReachedFrom(bytes, p, st, p, rt);
      var n: nat, sv: ReaderState :| && 0 <= p <= |bytes| && 0 < n && |sv.pool| <= |st.pool|
                                      && Rounds(bytes, p, sv, rt, n) == Ok(Step(st, p));
      forall m: nat
        ensures Rounds(bytes, p, st, rt, m).Ok?
      {
        CycleRunsForever(bytes, p, sv, rt, n, st, m);
      }
    } else if Chunk(bytes, p, st, rt).Err? {
      assert Rounds(bytes, p, st, rt, 0).value.pos < |bytes|;
      assert Rounds(bytes, p, st, rt, 1) == Err(d.error);
    } else {
      var step := Chunk(bytes, p, st, rt).value;
      assert p in Unvisited(|bytes|, visited) - Unvisited(|bytes|, visited + {p});
      HistoryStep(bytes, p, st, rt, visited);
      DecodeIsLoop(bytes, step.pos, step.state, rt, visited + {p});
      assert d == Decode(bytes, step.pos, step.state, rt, visited + {p});
      forall m: nat
        ensures Rounds(bytes, p, st, rt, m + 1) == Rounds(bytes, step.pos, step.state, rt, m)
      {
      }
      if d.Ok? {
        var m: nat :| Rounds(bytes, step.pos, step.state, rt, m) == Ok(Step(d.value, |bytes|));
        assert Rounds(bytes, p, st, rt, m + 1) == Ok(Step(d.value, |bytes|));
      } else if d.error != Cycle {
        var m: nat :| && Rounds(bytes, step.pos, step.state, rt, m).Ok?
                      && Rounds(bytes, step.pos, step.state, rt, m).value.pos < |bytes|
                      && Rounds(bytes, step.pos, step.state, rt, m + 1) == Err(d.error);
        assert Rounds(bytes, p, st, rt, m + 1 + 1) == Err(d.error);
      } else {
        forall m: nat
          ensures Rounds(bytes, p, st, rt, m).Ok?
        {
          if m > 0 {
            assert Rounds(bytes, p, st, rt, m - 1 + 1) == Rounds(bytes, step.pos, step.state, rt, m - 1);
          }
        }
      }
    }
  }

  /** `parse(ByteBuffer)` from position `p`: the 8-byte header, then the loop. */
  lemma ParseBufferIsLoop(bytes: seq<Byte>, p: int, st: ReaderState, rt: Runtime)
    requires 0 <= p <= |bytes|
    ensures p + 8 > |bytes| ==> ParseBuffer(bytes, p, st, rt) == Err(BufferUnderflow)
    ensures p + 8 <= |bytes| ==> IsLoopResult(bytes, p + 8, st, rt, ParseBuffer(bytes, p, st, rt))
  {
    if p + 8 <= |bytes| {
      DecodeIsLoop(bytes, p + 8, st, rt, {});
    }
  }
}
