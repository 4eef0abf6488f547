/**
  The token stream a caller obtains by calling Take until the end sentinel,
  and what it says about the buffer: it reproduces the content exactly, every
  token makes progress, and inside one chunk runs are never split.
 */
module TokenStream {
  import opened Options
  import opened Buffers
  import opened Tokens
  import opened TokenReader

  /** The text a reader still owes its caller: the cached token, if any. */
  function PendingText<C>(r: Reader<C>): seq<C> {
    if r.peeked.Some? then r.peeked.value.text else []
  }

  /** Everything the reader still owes its caller: the cached text, then the
      unread rest of the buffer. */
  function Owed<C>(r: Reader<C>): seq<C>
    requires Valid(r)
  {
    PendingText(r) + Flatten(r.buffer)[Offset(r.buffer, r.position)..]
  }

  /** Characters not yet handed out, plus one for a cached token. */
  function Measure<C>(r: Reader<C>): nat
    requires Valid(r)
  {
    |Flatten(r.buffer)| - Offset(r.buffer, r.position) + (if r.peeked.Some? then 1 else 0)
  }

  /** Taking a cached token hands out the cached text; the cursor stays. */
  lemma TakeCached<C>(cls: Classifier<C>, r: Reader<C>)
    requires Valid(r) && r.peeked.Some?
    ensures var s := Take(cls, r);
            && Owed(r) == s.token.text + Owed(s.reader)
            && (s.token.kind == End ==> Owed(r) == [])
  {
    var s := Take(cls, r);
    assert Owed(s.reader) == Flatten(r.buffer)[Offset(r.buffer, r.position)..];
  }

  /** Taking a fresh token hands out the content at the cursor. */
  lemma TakeFresh<C>(cls: Classifier<C>, r: Reader<C>)
    requires Valid(r) && r.peeked.None?
    ensures var s := Take(cls, r);
            && Owed(r) == s.token.text + Owed(s.reader)
            && (s.token.kind == End ==> Owed(r) == [])
  {
    var s := Take(cls, r);
    var content := Flatten(r.buffer);
    var o := Offset(r.buffer, r.position);
    var n := |s.token.text|;
    ReadTokenIsContent(cls, r);
    assert content[o..o + n] == s.token.text;
    assert content[o..] == s.token.text + content[o + n..];
    assert Owed(r) == content[o..];
    assert Owed(s.reader) == content[o + n..];
    if s.token.kind == End {
      assert o == |content|;
    }
  }

  /** One Take hands out exactly the front of what the reader still owes;
      a sentinel means nothing is owed, any other token shrinks the debt. */
  lemma TakeHandsOutContent<C>(cls: Classifier<C>, r: Reader<C>)
    requires Valid(r)
    ensures var s := Take(cls, r);
            && Owed(r) == s.token.text + Owed(s.reader)
            && (s.token.kind == End ==> Owed(r) == [])
            && (s.token.kind != End ==> Measure(s.reader) < Measure(r))
  {
    if r.peeked.Some? {
      TakeCached(cls, r);
    } else {
      TakeFresh(cls, r);
    }
  }

  lemma ConcatCons<C>(t: Token<C>, ts: seq<Token<C>>)
    ensures Concat([t] + ts) == t.text + Concat(ts)
  {
    assert ([t] + ts)[1..] == ts;
  }

  /** The tokens returned by Take up to, not including, the end sentinel.
      Every one of them is a real token with at least one character. */
  function TakeAll<C>(cls: Classifier<C>, r: Reader<C>): (ts: seq<Token<C>>)
    requires Valid(r)
    ensures forall i :: 0 <= i < |ts| ==> ts[i].kind != End && |ts[i].text| >= 1
    decreases Measure(r)
  {
    var s := Take(cls, r);
    TakeHandsOutContent(cls, r);
    if s.token.kind == End then [] else [s.token] + TakeAll(cls, s.reader)
  }

  /** The texts of the tokens up to the sentinel spell out exactly what the
      reader owed: the cached text and the rest of the buffer. */
  lemma {:induction false} TakeAllSpellsOwed<C>(cls: Classifier<C>, r: Reader<C>)
    requires Valid(r)
    ensures Concat(TakeAll(cls, r)) == Owed(r)
    decreases Measure(r)
  {
    var s := Take(cls, r);
    TakeHandsOutContent(cls, r);
    if s.token.kind != End {
      TakeAllSpellsOwed(cls, s.reader);
      ConcatCons(s.token, TakeAll(cls, s.reader));
    }
  }

  /** Tokenising a whole buffer loses nothing and adds nothing. */
  lemma Lossless<C>(cls: Classifier<C>, buffer: Chunks<C>)
    requires WellFormed(buffer)
    ensures Concat(TakeAll(cls, New(buffer))) == Flatten(buffer)
  {
    TakeAllSpellsOwed(cls, New(buffer));
  }

  /** For a buffer of one chunk, the token texts spell out that chunk. */
  lemma LosslessSingleChunk<C>(cls: Classifier<C>, s: seq<C>)
    ensures Concat(TakeAll(cls, New([s]))) == s
  {
    SingleChunk([s], StartPosition([s]));
    Lossless(cls, [s]);
  }

  /** In any buffer, a Text or Number token ends either at the end of its
      chunk or just before a character that breaks the run: when the cursor
      lands inside the same chunk, the next token is of another kind. */
  lemma RunEndsAtBreakInChunk<C>(cls: Classifier<C>, r: Reader<C>)
    requires Valid(r) && r.peeked.None?
    requires Take(cls, r).token.kind == Text || Take(cls, r).token.kind == Number
    requires Take(cls, r).reader.position != EndPosition(r.buffer)
    requires Take(cls, r).reader.position.segment == r.position.segment
    ensures Take(cls, Take(cls, r).reader).token.kind != Take(cls, r).token.kind
  {
    var s := Take(cls, r);
    var t := s.token;
    var u := Take(cls, s.reader).token;
    var p := r.position;
    var q := s.reader.position;
    var chunk := r.buffer[p.segment];
    var view := TryGet(r.buffer, p).value;
    assert view == chunk[p.index..];
    assert q.index == p.index + |t.text|;
    assert TryGet(r.buffer, q).value == chunk[q.index..];
    assert u.kind == Classify(cls, chunk[q.index]);
    assert chunk[q.index] == view[|t.text|];
  }

  /** In a one-chunk buffer, the token taken after a Text token is not Text,
      and the token taken after a Number token is not Number: the first
      token already took the whole run. */
  lemma RunEndsAtBreak<C>(cls: Classifier<C>, r: Reader<C>)
    requires Valid(r) && |r.buffer| == 1 && r.peeked.None?
    requires Take(cls, r).token.kind == Text || Take(cls, r).token.kind == Number
    ensures Take(cls, Take(cls, r).reader).token.kind != Take(cls, r).token.kind
  {
    var q := Take(cls, r).reader.position;
    if q != EndPosition(r.buffer) {
      SingleChunk(r.buffer, r.position);
      SingleChunk(r.buffer, q);
      RunEndsAtBreakInChunk(cls, r);
    }
  }

  /** In a one-chunk buffer a Text or Number run is never split: in the
      stream, a Text token is never followed by Text, nor Number by Number. */
  lemma {:induction false} RunsAreWholeInOneChunk<C>(cls: Classifier<C>, r: Reader<C>, i: nat)
    requires Valid(r) && |r.buffer| == 1 && r.peeked.None?
    requires i + 1 < |TakeAll(cls, r)|
    requires TakeAll(cls, r)[i].kind == Text || TakeAll(cls, r)[i].kind == Number
    ensures TakeAll(cls, r)[i + 1].kind != TakeAll(cls, r)[i].kind
    decreases Measure(r)
  {
    var s := Take(cls, r);
    var rest := TakeAll(cls, s.reader);
    assert TakeAll(cls, r) == [s.token] + rest;
    if i == 0 {
      assert rest[0] == Take(cls, s.reader).token;
      RunEndsAtBreak(cls, r);
    } else {
      RunsAreWholeInOneChunk(cls, s.reader, i - 1);
    }
  }

  /** Lifts the previous lemma to a fresh reader over one chunk. */
  lemma RunsAreWholeInSingleChunk<C>(cls: Classifier<C>, s: seq<C>, i: nat)
    requires i + 1 < |TakeAll(cls, New([s]))|
    requires TakeAll(cls, New([s]))[i].kind in {Text, Number}
    ensures TakeAll(cls, New([s]))[i + 1].kind != TakeAll(cls, New([s]))[i].kind
  {
    RunsAreWholeInOneChunk(cls, New([s]), i);
  }
}
