/**
  The chunked character buffer the token reader scans: a logically contiguous
  character sequence stored as a sequence of chunks (the segments of a
  ReadOnlySequence<char>), addressed by (segment, index) positions.
  Only the three operations the reader uses are modelled: the view at a
  position (TryGet), advancing a position by a count (GetPosition) and the
  end marker (End).
 */
module Buffers {
  import opened Options

  type Chunks<C> = seq<seq<C>>

  /** Every chunk except possibly the last holds at least one character.
      This is what makes the view at any position other than the end
      non-empty; a single empty chunk is the empty buffer. */
  predicate WellFormed<C>(chunks: Chunks<C>) {
    forall i :: 0 <= i < |chunks| - 1 ==> |chunks[i]| > 0
  }

  /** The logical content of the buffer: its chunks laid end to end. */
  function Flatten<C>(chunks: Chunks<C>): seq<C>
    decreases |chunks|
  {
    if |chunks| == 0 then [] else Flatten(chunks[..|chunks| - 1]) + chunks[|chunks| - 1]
  }

  lemma {:induction false} FlattenAppend<C>(a: Chunks<C>, b: Chunks<C>)
    ensures Flatten(a + b) == Flatten(a) + Flatten(b)
    decreases |b|
  {
    if |b| == 0 {
      assert a + b == a;
    } else {
      var b' := b[..|b| - 1];
      assert (a + b)[..|a + b| - 1] == a + b';
      FlattenAppend(a, b');
    }
  }

  /** The content up to and including chunk k. */
  lemma FlattenStep<C>(chunks: Chunks<C>, k: nat)
    requires k < |chunks|
    ensures Flatten(chunks[..k + 1]) == Flatten(chunks[..k]) + chunks[k]
  {
    assert chunks[..k + 1][..k] == chunks[..k];
  }

  /** Splits the content around chunk k. */
  lemma FlattenSplit<C>(chunks: Chunks<C>, k: nat)
    requires k < |chunks|
    ensures Flatten(chunks) == Flatten(chunks[..k]) + chunks[k] + Flatten(chunks[k + 1..])
    ensures Flatten(chunks[..k + 1]) == Flatten(chunks[..k]) + chunks[k]
  {
    var front, back := chunks[..k + 1], chunks[k + 1..];
    FlattenStep(chunks, k);
    assert chunks == front + back;
    FlattenAppend(front, back);
    calc {
      Flatten(chunks);
      Flatten(front) + Flatten(back);
      (Flatten(chunks[..k]) + chunks[k]) + Flatten(back);
    }
  }

  lemma FlattenPrefixMonotone<C>(chunks: Chunks<C>, j: nat, k: nat)
    requires j <= k <= |chunks|
    ensures |Flatten(chunks[..j])| <= |Flatten(chunks[..k])|
  {
    assert chunks[..k] == chunks[..j] + chunks[j..k];
    FlattenAppend(chunks[..j], chunks[j..k]);
  }

  /** A position: the segment it lies in and the index inside that segment. */
  datatype Position = Position(segment: nat, index: nat)

  /** The buffer's end marker: one past the last character of the last chunk. */
  function EndPosition<C>(chunks: Chunks<C>): Position {
    if |chunks| == 0 then Position(0, 0) else Position(|chunks| - 1, |chunks[|chunks| - 1]|)
  }

  /** The positions the buffer hands out: strictly inside a chunk, or the end. */
  predicate ValidPos<C>(chunks: Chunks<C>, p: Position) {
    p == EndPosition(chunks) || (p.segment < |chunks| && p.index < |chunks[p.segment]|)
  }

  lemma OffsetBound<C>(chunks: Chunks<C>, p: Position)
    requires WellFormed(chunks) && ValidPos(chunks, p)
    ensures p.segment <= |chunks|
    ensures |Flatten(chunks[..p.segment])| + p.index <= |Flatten(chunks)|
    ensures |Flatten(chunks[..p.segment])| + p.index == |Flatten(chunks)| <==> p == EndPosition(chunks)
  {
    if p == EndPosition(chunks) {
      if |chunks| > 0 {
        FlattenSplit(chunks, |chunks| - 1);
      }
    } else {
      FlattenSplit(chunks, p.segment);
    }
  }

  /** The number of characters before position p. */
  function Offset<C>(chunks: Chunks<C>, p: Position): (o: nat)
    requires WellFormed(chunks) && ValidPos(chunks, p)
    ensures o <= |Flatten(chunks)|
    ensures o == |Flatten(chunks)| <==> p == EndPosition(chunks)
  {
    OffsetBound(chunks, p);
    |Flatten(chunks[..p.segment])| + p.index
  }

  /** Positions in earlier chunks lie at smaller offsets. */
  lemma OffsetOrdered<C>(chunks: Chunks<C>, p: Position, q: Position)
    requires WellFormed(chunks) && ValidPos(chunks, p) && ValidPos(chunks, q)
    requires p != EndPosition(chunks) && p.segment < q.segment
    ensures Offset(chunks, p) < Offset(chunks, q)
  {
    FlattenSplit(chunks, p.segment);
    FlattenPrefixMonotone(chunks, p.segment + 1, q.segment);
  }

  /** Distinct positions lie at distinct offsets: the offset identifies the position. */
  lemma OffsetInjective<C>(chunks: Chunks<C>, p: Position, q: Position)
    requires WellFormed(chunks) && ValidPos(chunks, p) && ValidPos(chunks, q)
    ensures Offset(chunks, p) == Offset(chunks, q) <==> p == q
  {
    if p != EndPosition(chunks) && q != EndPosition(chunks) {
      if p.segment < q.segment {
        OffsetOrdered(chunks, p, q);
      } else if q.segment < p.segment {
        OffsetOrdered(chunks, q, p);
      }
    }
  }

  /** The buffer's first position (GetPosition(0) from the start). */
  function StartPosition<C>(chunks: Chunks<C>): (p: Position)
    ensures WellFormed(chunks) ==> ValidPos(chunks, p) && Offset(chunks, p) == 0
  {
    Position(0, 0)
  }

  /** The contiguous view at p: the rest of p's chunk only, not of the whole
      buffer; None when p names no chunk. */
  function TryGet<C>(chunks: Chunks<C>, p: Position): (view: Option<seq<C>>)
    ensures WellFormed(chunks) && ValidPos(chunks, p) && p != EndPosition(chunks) ==>
              && view.Some?
              && 1 <= |view.value|
              && p.segment < |chunks|
              && |view.value| == |chunks[p.segment]| - p.index
              && Offset(chunks, p) + |view.value| <= |Flatten(chunks)|
              && view.value == Flatten(chunks)[Offset(chunks, p)..Offset(chunks, p) + |view.value|]
  {
    if p.segment < |chunks| && p.index <= |chunks[p.segment]| then
      FlattenSplit(chunks, p.segment);
      Some(chunks[p.segment][p.index..])
    else
      None
  }

  /** Advances p by n characters (GetPosition(n, p)). Landing exactly on the
      end of a chunk other than the last moves to the start of the next
      chunk; on the last chunk it yields the end marker. */
  function Seek<C>(chunks: Chunks<C>, p: Position, n: nat): (q: Position)
    requires WellFormed(chunks) && ValidPos(chunks, p)
    requires n <= |Flatten(chunks)| - Offset(chunks, p)
    ensures ValidPos(chunks, q)
    ensures Offset(chunks, q) == Offset(chunks, p) + n
    decreases |chunks| - p.segment
  {
    if p == EndPosition(chunks) then
      p
    else if p.index + n < |chunks[p.segment]| then
      Position(p.segment, p.index + n)
    else if p.segment + 1 == |chunks| then
      FlattenSplit(chunks, p.segment);
      Position(p.segment, p.index + n)
    else
      FlattenSplit(chunks, p.segment);
      var next := Position(p.segment + 1, 0);
      assert ValidPos(chunks, next);
      Seek(chunks, next, n - (|chunks[p.segment]| - p.index))
  }

  /** In a one-chunk buffer a position is just an index into that chunk. */
  lemma SingleChunk<C>(chunks: Chunks<C>, p: Position)
    requires |chunks| == 1 && ValidPos(chunks, p)
    ensures Flatten(chunks) == chunks[0]
    ensures p.segment == 0 && Offset(chunks, p) == p.index
  {
    assert chunks[..0] == [];
  }
}
