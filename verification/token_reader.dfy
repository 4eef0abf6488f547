/**
  The single-lookahead token reader: a cursor into a chunked buffer plus a
  one-slot cache for the token returned by Peek and not yet taken. The
  reader is an immutable value; Peek, Take and ConsumeToken return the token
  together with the reader's next state.
 */
module TokenReader {
  import opened Options
  import opened Buffers
  import opened Tokens

  /** The reader's state: the buffer, the cursor, and the lookahead slot. */
  datatype Reader<C> = Reader(buffer: Chunks<C>, position: Position, peeked: Option<Token<C>>)

  /** A token together with the reader state after producing it. */
  datatype Step<C> = Step(token: Token<C>, reader: Reader<C>)

  /** The buffer is well formed and the cursor is a position it hands out. */
  predicate CursorValid<C>(r: Reader<C>) {
    WellFormed(r.buffer) && ValidPos(r.buffer, r.position)
  }

  /** The reader invariant: a cached token is well shaped, an end sentinel is
      only cached at the end, and the cached text is exactly the content
      just before the cursor (the cursor has already moved past it). */
  ghost predicate Valid<C>(r: Reader<C>) {
    && CursorValid(r)
    && (r.peeked.Some? ==>
          var t := r.peeked.value;
          var o := Offset(r.buffer, r.position);
          && WellShaped(t)
          && (t.kind == End ==> r.position == EndPosition(r.buffer))
          && |t.text| <= o
          && Flatten(r.buffer)[o - |t.text|..o] == t.text)
  }

  /** A fresh reader: cursor at the start of the buffer, nothing cached. */
  function New<C>(buffer: Chunks<C>): (r: Reader<C>)
    ensures r.buffer == buffer && r.peeked == None
    ensures WellFormed(buffer) ==> Valid(r) && Offset(buffer, r.position) == 0
  {
    Reader(buffer, StartPosition(buffer), None)
  }

  /** The loop of ReadWhile: from count on, how far pred keeps holding. */
  function CountWhile<C>(span: seq<C>, pred: C -> bool, count: nat): (n: nat)
    requires count <= |span|
    ensures count <= n <= |span|
    ensures forall i :: count <= i < n ==> pred(span[i])
    ensures n < |span| ==> !pred(span[n])
    decreases |span| - count
  {
    if count < |span| && pred(span[count]) then CountWhile(span, pred, count + 1) else count
  }

  /** The longest prefix of span whose characters satisfy pred. */
  function ReadWhile<C>(span: seq<C>, pred: C -> bool): (run: seq<C>)
    ensures IsMaximalRun(span, pred, run)
  {
    span[..CountWhile(span, pred, 0)]
  }

  function ReadOne<C>(span: seq<C>): seq<C>
    requires |span| >= 1
  {
    span[..1]
  }

  /** Reads the token at the cursor without moving it. */
  function ReadToken<C>(cls: Classifier<C>, r: Reader<C>): (t: Token<C>)
    requires CursorValid(r)
    ensures WellShaped(t)
    ensures t.kind == End <==> r.position == EndPosition(r.buffer) || TryGet(r.buffer, r.position).None?
    ensures t.kind == End ==> t == Default()
    ensures t.kind != End ==> ScanRule(cls, TryGet(r.buffer, r.position).value, t)
    ensures t.kind != End ==>
              && r.position.segment < |r.buffer|
              && r.position.index + |t.text| <= |r.buffer[r.position.segment]|
              && t.text == r.buffer[r.position.segment][r.position.index..r.position.index + |t.text|]
  {
    if r.position == EndPosition(r.buffer) || TryGet(r.buffer, r.position).None? then
      Default()
    else
      var span := TryGet(r.buffer, r.position).value;
      if cls.isText(span[0]) then Token(Text, ReadWhile(span, cls.isText))
      else if cls.isNumber(span[0]) then Token(Number, ReadWhile(span, cls.isNumber))
      else if cls.isWhiteSpace(span[0]) then Token(Space, ReadOne(span))
      else Token(Other, ReadOne(span))
  }

  /** On a valid cursor the token read is the content at the cursor, and the
      sentinel is read exactly at the end of the buffer. */
  lemma ReadTokenIsContent<C>(cls: Classifier<C>, r: Reader<C>)
    requires CursorValid(r)
    ensures var t := ReadToken(cls, r);
            var o := Offset(r.buffer, r.position);
            && (t.kind == End <==> r.position == EndPosition(r.buffer))
            && o + |t.text| <= |Flatten(r.buffer)|
            && Flatten(r.buffer)[o..o + |t.text|] == t.text
  {
    var t := ReadToken(cls, r);
    if t.kind != End {
      var view := TryGet(r.buffer, r.position).value;
      var o := Offset(r.buffer, r.position);
      assert t.text == view[..|t.text|];
      assert view[..|t.text|] == Flatten(r.buffer)[o..o + |t.text|];
    }
  }

  /** Reads the token at the cursor and moves the cursor past it. */
  function ConsumeToken<C>(cls: Classifier<C>, r: Reader<C>): (s: Step<C>)
    requires CursorValid(r)
    ensures s.token == ReadToken(cls, r)
    ensures s.reader == r.(position := s.reader.position)
    ensures ValidPos(r.buffer, s.reader.position)
    ensures Offset(r.buffer, s.reader.position) == Offset(r.buffer, r.position) + |s.token.text|
  {
    var token := ReadToken(cls, r);
    ReadTokenIsContent(cls, r);
    Step(token, r.(position := Seek(r.buffer, r.position, |token.text|)))
  }

  /** The next token, cached so that it is returned again until taken. */
  function Peek<C>(cls: Classifier<C>, r: Reader<C>): (s: Step<C>)
    requires Valid(r)
    ensures Valid(s.reader) && s.reader.buffer == r.buffer
    ensures WellShaped(s.token) && s.reader.peeked == Some(s.token)
    ensures r.peeked.Some? ==> s == Step(r.peeked.value, r)
    ensures r.peeked.None? ==>
              && s.token == ReadToken(cls, r)
              && Offset(r.buffer, s.reader.position) == Offset(r.buffer, r.position) + |s.token.text|
  {
    if r.peeked.None? then
      var c := ConsumeToken(cls, r);
      ReadTokenIsContent(cls, r);
      OffsetInjective(r.buffer, r.position, c.reader.position);
      Step(c.token, c.reader.(peeked := Some(c.token)))
    else
      Step(r.peeked.value, r)
  }

  /** The next token: the cached one if there is one, else a freshly read one. */
  function Take<C>(cls: Classifier<C>, r: Reader<C>): (s: Step<C>)
    requires Valid(r)
    ensures Valid(s.reader) && s.reader.buffer == r.buffer && s.reader.peeked == None
    ensures WellShaped(s.token)
    ensures r.peeked.Some? ==> s.token == r.peeked.value && s.reader.position == r.position
    ensures r.peeked.None? ==>
              && s.token == ReadToken(cls, r)
              && Offset(r.buffer, s.reader.position) == Offset(r.buffer, r.position) + |s.token.text|
  {
    if r.peeked.Some? then
      Step(r.peeked.value, r.(peeked := None))
    else
      ConsumeToken(cls, r)
  }

  /** A second Peek with no Take in between returns the same token and
      leaves the reader as the first one left it. */
  lemma PeekIsIdempotent<C>(cls: Classifier<C>, r: Reader<C>)
    requires Valid(r)
    ensures Peek(cls, Peek(cls, r).reader) == Peek(cls, r)
  {
  }

  /** Take after Peek returns the peeked token and leaves the reader exactly
      where a lone Take would: the cursor moves once, not twice. */
  lemma TakeAfterPeek<C>(cls: Classifier<C>, r: Reader<C>)
    requires Valid(r)
    ensures Take(cls, Peek(cls, r).reader).token == Peek(cls, r).token
    ensures Take(cls, Peek(cls, r).reader) == Take(cls, r)
  {
  }

  /** The step after k >= 1 consecutive Peek calls. */
  function PeekTimes<C>(cls: Classifier<C>, r: Reader<C>, k: nat): (s: Step<C>)
    requires Valid(r) && k >= 1
    ensures Valid(s.reader) && s.reader.peeked == Some(s.token)
    decreases k
  {
    if k == 1 then Peek(cls, r) else Peek(cls, PeekTimes(cls, r, k - 1).reader)
  }

  /** Peeking k >= 1 times is the same as peeking once. */
  lemma {:induction false} PeekTimesIsPeek<C>(cls: Classifier<C>, r: Reader<C>, k: nat)
    requires Valid(r) && k >= 1
    ensures PeekTimes(cls, r, k) == Peek(cls, r)
    decreases k
  {
    if k > 1 {
      PeekTimesIsPeek(cls, r, k - 1);
      PeekIsIdempotent(cls, r);
    }
  }

  /** Any number of Peek calls return the first peeked token, and the Take
      that follows returns it too and ends where a lone Take would. */
  lemma PeeksThenTake<C>(cls: Classifier<C>, r: Reader<C>, k: nat)
    requires Valid(r) && k >= 1
    ensures PeekTimes(cls, r, k).token == Peek(cls, r).token
    ensures Take(cls, PeekTimes(cls, r, k).reader) == Take(cls, r)
  {
    PeekTimesIsPeek(cls, r, k);
    TakeAfterPeek(cls, r);
  }

  /** Once Take yields the end sentinel the cursor is at the end of the
      buffer, and every further Take or Peek yields the sentinel again
      without changing the reader. */
  lemma EndIsSticky<C>(cls: Classifier<C>, r: Reader<C>)
    requires Valid(r) && Take(cls, r).token.kind == End
    ensures var next := Take(cls, r).reader;
            && next.position == EndPosition(r.buffer)
            && Take(cls, next) == Step(Default(), next)
            && Peek(cls, next) == Step(Default(), next.(peeked := Some(Default())))
  {
    if r.peeked.None? {
      ReadTokenIsContent(cls, r);
    }
    var next := Take(cls, r).reader;
    OffsetInjective(next.buffer, next.position, Seek(next.buffer, next.position, 0));
  }
}
