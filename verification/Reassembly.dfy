/**
 * Ordered reassembly of byte ranges, shared by STREAM and CRYPTO data: out-of-order
 * segments wait in a map keyed by start offset until the gap before them closes.
 */
module Reassembly {
  import opened Common

  type Pending = map<nat, seq<byte>>

  /** `offset` is the next byte wanted; `ready` holds bytes delivered but not yet taken. */
  datatype Buffer = Buffer(offset: nat, pending: Pending, ready: seq<byte>)

  const EMPTY: Buffer := Buffer(0, map[], [])

  /** The largest key not above `k`: `BTreeMap::range(..=k).next_back()`. */
  function FloorKey(pending: Pending, k: nat): (r: Option<nat>)
    ensures r.Some? ==> r.value in pending && r.value <= k
    ensures r.Some? ==> forall j :: r.value < j <= k ==> j !in pending
    ensures r.None? ==> forall j :: 0 <= j <= k ==> j !in pending
  {
    if k in pending then Some(k)
    else if k == 0 then None
    else FloorKey(pending, k - 1)
  }

  /** Takes one segment out and delivers what is new of it. */
  function Popped(b: Buffer, start: nat): (r: Buffer)
    requires start in b.pending && start <= b.offset
    ensures |r.pending| < |b.pending| && r.pending == b.pending - {start}
    ensures r.offset == Max(b.offset, start + |b.pending[start]|)
  {
    var seg, rest := b.pending[start], b.pending - {start};
    if start + |seg| <= b.offset then b.(pending := rest)
    else Buffer(start + |seg|, rest, b.ready + seg[b.offset - start..])
  }

  /** Delivers every pending segment that starts at or below the wanted offset. */
  function Flush(b: Buffer): (f: Buffer)
    decreases |b.pending|
  {
    match FloorKey(b.pending, b.offset)
    case None => b
    case Some(start) => Flush(Popped(b, start))
  }

  lemma FlushUnfold(b: Buffer)
    ensures match FloorKey(b.pending, b.offset)
            case None => Flush(b) == b
            case Some(start) => Flush(b) == Flush(Popped(b, start))
  {
  }

  /** Receives `data` at `offset`: drops what was delivered, buffers the rest, flushes. */
  function Accept(b: Buffer, offset: nat, data: seq<byte>): (r: Buffer) {
    if offset + |data| <= b.offset then b
    else
      var skip := SatSub(b.offset, offset);
      var pending := if data[skip..] != [] then b.pending[offset + skip := data[skip..]] else b.pending;
      Flush(b.(pending := pending))
  }

  // ------------------------------------------------------------------ coverage

  predicate InSegment(pending: Pending, s: nat, x: nat) {
    s in pending && s <= x < s + |pending[s]|
  }

  ghost predicate Buffered(pending: Pending, x: nat) {
    exists s: nat :: InSegment(pending, s, x)
  }

  /** Byte `x` has been received and is not lost: delivered or buffered. */
  ghost predicate Covers(b: Buffer, x: nat) {
    x < b.offset || Buffered(b.pending, x)
  }

  /** Between calls nothing deliverable and nothing empty is buffered. */
  ghost predicate Settled(b: Buffer) {
    forall s: nat :: s in b.pending ==> s > b.offset && b.pending[s] != []
  }

  /** What flushing does: it raises the offset and drops exactly the keys below it. */
  ghost predicate Flushed(b: Buffer, f: Buffer) {
    && b.offset <= f.offset
    && f.pending.Keys <= b.pending.Keys
    && (forall s: nat :: s in b.pending ==>
          if s > f.offset then s in f.pending && f.pending[s] == b.pending[s]
          else s !in f.pending && s + |b.pending[s]| <= f.offset)
    && (forall x: nat :: b.offset <= x < f.offset ==> Buffered(b.pending, x))
  }

  lemma {:induction false} FlushShape(b: Buffer)
    ensures Flushed(b, Flush(b))
    decreases |b.pending|
  {
    match FloorKey(b.pending, b.offset)
    case None =>
    case Some(start) =>
      hide Popped, Flushed;
      FlushShape(Popped(b, start));
      FlushStep(b, start, Popped(b, start), Flush(Popped(b, start)));
  }

  lemma FlushStep(b: Buffer, start: nat, next: Buffer, f: Buffer)
    requires start in b.pending && start <= b.offset && next.pending == b.pending - {start}
    requires next.offset == Max(b.offset, start + |b.pending[start]|) && Flushed(next, f)
    ensures Flushed(b, f)
  {
    forall s: nat | s in b.pending
      ensures if s > f.offset then s in f.pending && f.pending[s] == b.pending[s]
              else s !in f.pending && s + |b.pending[s]| <= f.offset
    {
      if s != start {
        assert s in next.pending && next.pending[s] == b.pending[s];
      } else {
        assert s !in next.pending && s + |b.pending[s]| <= next.offset <= f.offset;
      }
    }
    forall x: nat | b.offset <= x < f.offset
      ensures Buffered(b.pending, x)
    {
      if x < next.offset {
        assert InSegment(b.pending, start, x);
      } else {
        assert Buffered(next.pending, x);
        var s: nat :| InSegment(next.pending, s, x);
        assert InSegment(b.pending, s, x);
      }
    }
  }

  /** Flushing never loses and never invents a byte. */
  lemma FlushCovers(b: Buffer, x: nat)
    ensures Covers(Flush(b), x) <==> Covers(b, x)
  {
    FlushShape(b);
    var f := Flush(b);
    if Buffered(b.pending, x) {
      var s: nat :| InSegment(b.pending, s, x);
      if s > f.offset {
        assert InSegment(f.pending, s, x);
      }
    }
    if Buffered(f.pending, x) {
      var s: nat :| InSegment(f.pending, s, x);
      assert InSegment(b.pending, s, x);
    }
  }

  /** The bytes a call would overwrite: the tail of a longer segment at the same start. */
  predicate Overwritten(b: Buffer, offset: nat, data: seq<byte>, x: nat) {
    offset in b.pending && offset + |data| <= x < offset + |b.pending[offset]|
  }

  ghost predicate Spared(b: Buffer, offset: nat, x: nat) {
    exists s: nat :: s != offset && InSegment(b.pending, s, x)
  }

  /**
   * One call adds exactly its own interval, if and only if every byte it overwrites is
   * also held by another buffered segment.
   */
  lemma AcceptExact(b: Buffer, offset: nat, data: seq<byte>)
    requires Settled(b) && data != []
    ensures (forall x: nat :: Covers(Accept(b, offset, data), x) <==>
               Covers(b, x) || offset <= x < offset + |data|)
       <==> (forall x: nat :: Overwritten(b, offset, data, x) ==> Spared(b, offset, x))
  {
    forall x: nat
      ensures Covers(Accept(b, offset, data), x) <==>
                if Overwritten(b, offset, data, x) then Spared(b, offset, x)
                else Covers(b, x) || offset <= x < offset + |data|
    {
      AcceptCovers(b, offset, data, x);
    }
    forall x: nat | Overwritten(b, offset, data, x)
      ensures Covers(b, x)
    {
      assert InSegment(b.pending, offset, x);
    }
  }

  lemma AcceptCovers(b: Buffer, offset: nat, data: seq<byte>, x: nat)
    requires Settled(b) && data != []
    ensures Covers(Accept(b, offset, data), x) <==>
              if Overwritten(b, offset, data, x) then Spared(b, offset, x)
              else Covers(b, x) || offset <= x < offset + |data|
  {
    hide Flush;
    if offset + |data| > b.offset {
      var skip := SatSub(b.offset, offset);
      var at, tail := offset + skip, data[skip..];
      var b' := b.(pending := b.pending[at := tail]);
      FlushCovers(b', x);
      if InSegment(b'.pending, at, x) {
      } else if Buffered(b'.pending, x) {
        var s: nat :| InSegment(b'.pending, s, x);
        assert InSegment(b.pending, s, x);
      } else {
        forall s: nat | s != at
          ensures !InSegment(b.pending, s, x)
        {
          assert InSegment(b'.pending, s, x) == InSegment(b.pending, s, x);
        }
      }
    }
  }

  lemma AcceptSettled(b: Buffer, offset: nat, data: seq<byte>)
    requires Settled(b)
    ensures Settled(Accept(b, offset, data))
  {
    hide Flush;
    if offset + |data| > b.offset {
      var skip := SatSub(b.offset, offset);
      FlushShape(b.(pending := if data[skip..] != [] then b.pending[offset + skip := data[skip..]] else b.pending));
    }
  }

  // ----------------------------------------------- refinement to an interval set

  datatype Chunk = Chunk(offset: nat, data: seq<byte>)

  function AcceptAll(b: Buffer, chunks: seq<Chunk>): (r: Buffer) {
    if chunks == [] then b
    else
      var last := chunks[|chunks| - 1];
      Accept(AcceptAll(b, chunks[..|chunks| - 1]), last.offset, last.data)
  }

  predicate InChunk(chunks: seq<Chunk>, i: nat, x: nat) {
    i < |chunks| && chunks[i].offset <= x < chunks[i].offset + |chunks[i].data|
  }

  /** The union of the received intervals. */
  ghost predicate InUnion(chunks: seq<Chunk>, x: nat) {
    exists i: nat :: InChunk(chunks, i, x)
  }

  /** The same bytes are held as arrived. */
  ghost predicate ExactUnion(chunks: seq<Chunk>) {
    forall x: nat :: Covers(AcceptAll(EMPTY, chunks), x) <==> InUnion(chunks, x)
  }

  /** ... after every arrival so far. */
  ghost predicate AlwaysExact(chunks: seq<Chunk>) {
    ExactUnion(chunks) && (chunks == [] || AlwaysExact(chunks[..|chunks| - 1]))
  }

  /** The chunk overwrites only bytes that are also buffered elsewhere. */
  ghost predicate Harmless(b: Buffer, c: Chunk) {
    c.data == [] || forall x: nat :: Overwritten(b, c.offset, c.data, x) ==> Spared(b, c.offset, x)
  }

  ghost predicate Lossless(chunks: seq<Chunk>) {
    chunks == [] ||
    var front := chunks[..|chunks| - 1];
    Lossless(front) && Harmless(AcceptAll(EMPTY, front), chunks[|chunks| - 1])
  }

  /** No chunk is shorter than a segment already buffered at the same start. */
  predicate NeverShorter(chunks: seq<Chunk>) {
    chunks == [] ||
    var front, last := chunks[..|chunks| - 1], chunks[|chunks| - 1];
    var pending := AcceptAll(EMPTY, front).pending;
    NeverShorter(front) && (last.offset in pending ==> |pending[last.offset]| <= |last.data|)
  }

  /** A condition the sender can meet: re-send in pieces no shorter than before. */
  lemma {:induction false} NeverShorterLossless(chunks: seq<Chunk>)
    requires NeverShorter(chunks)
    ensures Lossless(chunks)
  {
    if chunks != [] {
      NeverShorterLossless(chunks[..|chunks| - 1]);
      hide AcceptAll;
    }
  }

  lemma {:induction false} AcceptAllSettled(chunks: seq<Chunk>)
    ensures Settled(AcceptAll(EMPTY, chunks))
  {
    if chunks != [] {
      var front, last := chunks[..|chunks| - 1], chunks[|chunks| - 1];
      AcceptAllSettled(front);
      AcceptSettled(AcceptAll(EMPTY, front), last.offset, last.data);
    }
  }

  /**
   * Reassembly is the interval set, in any order of arrival and with any overlaps, exactly
   * when no arrival overwrites a byte held nowhere else.
   */
  lemma {:induction false} AcceptAllIsUnion(chunks: seq<Chunk>)
    ensures AlwaysExact(chunks) <==> Lossless(chunks)
  {
    if chunks == [] {
      assert forall x: nat :: !Covers(EMPTY, x) && !InUnion([], x);
    } else {
      AcceptAllIsUnion(chunks[..|chunks| - 1]);
      if AlwaysExact(chunks[..|chunks| - 1]) {
        UnionStep(chunks);
      }
    }
  }

  lemma UnionStep(chunks: seq<Chunk>)
    requires chunks != [] && ExactUnion(chunks[..|chunks| - 1])
    ensures ExactUnion(chunks) <==> Harmless(AcceptAll(EMPTY, chunks[..|chunks| - 1]), chunks[|chunks| - 1])
  {
    var front, last := chunks[..|chunks| - 1], chunks[|chunks| - 1];
    var b := AcceptAll(EMPTY, front);
    var b' := Accept(b, last.offset, last.data);
    assert AcceptAll(EMPTY, chunks) == b';
    AcceptAllSettled(front);
    assert front + [last] == chunks;
    forall x: nat
      ensures InUnion(chunks, x) <==> Covers(b, x) || last.offset <= x < last.offset + |last.data|
    {
      UnionSnoc(front, last, x);
      assert Covers(b, x) <==> InUnion(front, x);
    }
    hide AcceptAll, Accept, Covers, InUnion;
    if last.data == [] {
      EmptyAccept(b, last.offset);
    } else {
      AcceptExact(b, last.offset, last.data);
    }
  }

  lemma UnionSnoc(front: seq<Chunk>, last: Chunk, x: nat)
    ensures InUnion(front + [last], x)
       <==> InUnion(front, x) || last.offset <= x < last.offset + |last.data|
  {
    var all := front + [last];
    if InUnion(front, x) {
      var i: nat :| InChunk(front, i, x);
      assert InChunk(all, i, x);
    }
    if last.offset <= x < last.offset + |last.data| {
      assert InChunk(all, |front|, x);
    }
    if InUnion(all, x) {
      var i: nat :| InChunk(all, i, x);
      if i < |front| {
        assert InChunk(front, i, x);
      }
    }
  }

  lemma EmptyAccept(b: Buffer, offset: nat)
    requires Settled(b)
    ensures Accept(b, offset, []) == b
  {
  }

  /** The delivered prefix is the longest one covered by the union of what arrived. */
  lemma LongestPrefix(chunks: seq<Chunk>)
    requires Lossless(chunks)
    ensures var b := AcceptAll(EMPTY, chunks);
            && (forall x: nat :: 0 <= x < b.offset ==> InUnion(chunks, x))
            && !InUnion(chunks, b.offset)
            && (forall s: nat :: s in b.pending ==> s > b.offset)
  {
    AcceptAllIsUnion(chunks);
    AcceptAllSettled(chunks);
    var b := AcceptAll(EMPTY, chunks);
    forall x: nat | 0 <= x < b.offset
      ensures InUnion(chunks, x)
    {
      assert Covers(b, x);
    }
    assert !Covers(b, b.offset);
  }

  /** The hypothesis is needed: a shorter retransmission makes a received byte disappear. */
  lemma ShorterReplacesLonger()
    ensures var chunks := [Chunk(1, [7, 8]), Chunk(1, [7]), Chunk(0, [6])];
            && InUnion(chunks, 2)
            && AcceptAll(EMPTY, chunks).offset == 2
            && !Covers(AcceptAll(EMPTY, chunks), 2)
  {
    hide Flush;
    var one, two := [Chunk(1, [7, 8])], [Chunk(1, [7, 8]), Chunk(1, [7])];
    var chunks := [Chunk(1, [7, 8]), Chunk(1, [7]), Chunk(0, [6])];
    assert InChunk(chunks, 0, 2);
    assert chunks[..2] == two && two[..1] == one && one[..0] == [];
    var b1 := Buffer(0, map[1 := [7, 8]], []);
    var b2 := Buffer(0, map[1 := [7]], []);
    assert AcceptAll(EMPTY, one) == b1 by {
      assert AcceptAll(EMPTY, one[..0]) == EMPTY;
      assert EMPTY.pending[1 := [7, 8]] == b1.pending;
      FlushUnfold(b1);
    }
    assert AcceptAll(EMPTY, two) == b2 by {
      assert b1.pending[1 := [7]] == b2.pending;
      FlushUnfold(b2);
    }
    assert AcceptAll(EMPTY, chunks) == Buffer(2, map[], [6, 7]) by {
      FlushTwo();
    }
  }

  lemma FlushTwo()
    ensures Accept(Buffer(0, map[1 := [7]], []), 0, [6]) == Buffer(2, map[], [6, 7])
  {
    var one: Pending := map[1 := [7]];
    var none: Pending := map[];
    var nothing: seq<byte>, six: seq<byte>, seven: seq<byte> := [], [6], [7];
    assert one[0 := six] - {0} == one && one - {1} == none;
    assert six[0..] == six && seven[0..] == seven && nothing + six == six && six + seven == [6, 7];
    assert Flush(Buffer(2, none, [6, 7])) == Buffer(2, none, [6, 7]);
    assert Flush(Buffer(1, one, six)) == Buffer(2, none, [6, 7]);
    assert Flush(Buffer(0, one[0 := six], [])) == Buffer(2, none, [6, 7]);
  }

  // ------------------------------------------------------------------- contents

  /** Every buffered segment and every ready byte is the part of `w` it claims to be. */
  ghost predicate Matches(b: Buffer, w: seq<byte>, taken: nat) {
    && taken <= b.offset <= |w|
    && b.ready == w[taken..b.offset]
    && forall s: nat :: s in b.pending ==> SliceAt(w, s, b.pending[s])
  }

  predicate SliceAt(w: seq<byte>, offset: nat, data: seq<byte>) {
    offset + |data| <= |w| && w[offset..offset + |data|] == data
  }

  lemma {:induction false} FlushMatches(b: Buffer, w: seq<byte>, taken: nat)
    requires Matches(b, w, taken)
    ensures Matches(Flush(b), w, taken)
    decreases |b.pending|
  {
    match FloorKey(b.pending, b.offset)
    case None =>
    case Some(start) =>
      PoppedMatches(b, start, w, taken);
      hide Popped, Matches;
      FlushMatches(Popped(b, start), w, taken);
  }

  lemma PoppedMatches(b: Buffer, start: nat, w: seq<byte>, taken: nat)
    requires Matches(b, w, taken) && start in b.pending && start <= b.offset
    ensures Matches(Popped(b, start), w, taken)
  {
    var seg, end := b.pending[start], start + |b.pending[start]|;
    assert SliceAt(w, start, seg);
    if end > b.offset {
      assert seg[b.offset - start..] == w[b.offset..end];
      assert w[taken..b.offset] + w[b.offset..end] == w[taken..end];
    }
  }

  lemma AcceptMatches(b: Buffer, w: seq<byte>, taken: nat, offset: nat, data: seq<byte>)
    requires Matches(b, w, taken) && SliceAt(w, offset, data)
    ensures Matches(Accept(b, offset, data), w, taken)
  {
    hide Flush;
    if offset + |data| > b.offset {
      var skip := SatSub(b.offset, offset);
      assert data[skip..] == w[offset + skip..offset + |data|];
      var pending := if data[skip..] != [] then b.pending[offset + skip := data[skip..]] else b.pending;
      FlushMatches(b.(pending := pending), w, taken);
    }
  }
}
