/**
  Concrete tokenisations under an example ASCII classifier (letters are
  Text, decimal digits are Number, the blank is Space). The classifier of
  the system itself is not part of this model; these scenarios only fix one
  instance to make the scanning rules visible.
 */
module Scenarios {
  import opened Options
  import opened Buffers
  import opened Tokens
  import opened TokenReader
  import opened TokenStream

  predicate IsLetter(c: char) { 'a' <= c <= 'z' || 'A' <= c <= 'Z' }

  predicate IsDigit(c: char) { '0' <= c <= '9' }

  predicate IsBlank(c: char) { c == ' ' }

  const Ascii: Classifier<char> := Classifier(IsLetter, IsDigit, IsBlank)

  /** A clean reader at p takes the token the scanning rules prescribe and
      lands at q, the position that many characters further on. */
  lemma TakeAt<C>(cls: Classifier<C>, buffer: Chunks<C>, p: Position, t: Token<C>, q: Position)
    requires WellFormed(buffer) && ValidPos(buffer, p) && ValidPos(buffer, q)
    requires p != EndPosition(buffer)
    requires ScanRule(cls, TryGet(buffer, p).value, t)
    requires Offset(buffer, q) == Offset(buffer, p) + |t.text|
    ensures Valid(Reader(buffer, p, None))
    ensures Take(cls, Reader(buffer, p, None)) == Step(t, Reader(buffer, q, None))
  {
    var r := Reader(buffer, p, None);
    var s := Take(cls, r);
    ScanRuleDeterministic(cls, TryGet(buffer, p).value, s.token, t);
    OffsetInjective(buffer, s.reader.position, q);
  }

  /** A clean reader at the end takes nothing more. */
  lemma NothingAtEnd<C>(cls: Classifier<C>, buffer: Chunks<C>)
    requires WellFormed(buffer)
    ensures TakeAll(cls, Reader(buffer, EndPosition(buffer), None)) == []
  {
    assert ValidPos(buffer, EndPosition(buffer));
  }

  /** In a one-chunk buffer, a clean reader at index i takes the token the
      scanning rules prescribe for the rest of the chunk and moves past it. */
  lemma TakeInChunk<C>(cls: Classifier<C>, line: seq<C>, i: nat, t: Token<C>)
    requires i < |line| && ScanRule(cls, line[i..], t)
    ensures Take(cls, Reader([line], Position(0, i), None))
            == Step(t, Reader([line], Position(0, i + |t.text|), None))
  {
    var p := Position(0, i);
    var q := Position(0, i + |t.text|);
    SingleChunk([line], p);
    SingleChunk([line], q);
    TakeAt(cls, [line], p, t, q);
  }

  /** The same step, seen from the token stream. */
  lemma TakeAllInChunk<C>(cls: Classifier<C>, line: seq<C>, i: nat, t: Token<C>, j: nat)
    requires i < |line| && ScanRule(cls, line[i..], t) && j == i + |t.text|
    ensures TakeAll(cls, Reader([line], Position(0, i), None))
            == [t] + TakeAll(cls, Reader([line], Position(0, j), None))
  {
    TakeInChunk(cls, line, i, t);
  }

  const MixedLineText: seq<char> := "ab12 c!"

  /** What the scanning rules prescribe at each token start of "ab12 c!". */
  lemma MixedLineRules()
    ensures ScanRule(Ascii, MixedLineText[0..], Token(Text, "ab"))
    ensures ScanRule(Ascii, MixedLineText[2..], Token(Number, "12"))
    ensures ScanRule(Ascii, MixedLineText[4..], Token(Space, " "))
    ensures ScanRule(Ascii, MixedLineText[5..], Token(Text, "c"))
    ensures ScanRule(Ascii, MixedLineText[6..], Token(Other, "!"))
  {
    assert MixedLineText[0..] == "ab12 c!";
    assert MixedLineText[2..] == "12 c!";
    assert MixedLineText[4..] == " c!";
    assert MixedLineText[5..] == "c!";
    assert MixedLineText[6..] == "!";
  }

  /** The scan of "ab12 c!" from index 4 on: Space, Text "c", Other "!". */
  lemma MixedLineTail()
    ensures TakeAll(Ascii, Reader([MixedLineText], Position(0, 4), None))
            == [Token(Space, " "), Token(Text, "c"), Token(Other, "!")]
  {
    var line := MixedLineText;
    var b := [line];
    MixedLineRules();
    NothingAtEnd(Ascii, b);
    TakeAllInChunk(Ascii, line, 6, Token(Other, "!"), 7);
    TakeAllInChunk(Ascii, line, 5, Token(Text, "c"), 6);
    TakeAllInChunk(Ascii, line, 4, Token(Space, " "), 5);
  }

  /** The scan of "ab12 c!" from index 2 on: Number "12", then the tail. */
  lemma MixedLineFromNumber()
    ensures TakeAll(Ascii, Reader([MixedLineText], Position(0, 2), None))
            == [Token(Number, "12"), Token(Space, " "), Token(Text, "c"), Token(Other, "!")]
  {
    MixedLineRules();
    MixedLineTail();
    TakeAllInChunk(Ascii, MixedLineText, 2, Token(Number, "12"), 4);
  }

  /** "ab12 c!" in one chunk: Text "ab", Number "12", Space " ", Text "c", Other "!". */
  lemma MixedLine()
    ensures TakeAll(Ascii, New([MixedLineText])) ==
            [Token(Text, "ab"), Token(Number, "12"), Token(Space, " "), Token(Text, "c"), Token(Other, "!")]
  {
    MixedLineRules();
    MixedLineFromNumber();
    TakeAllInChunk(Ascii, MixedLineText, 0, Token(Text, "ab"), 2);
  }

  const SplitBuffer: Chunks<char> := ["ab", "cd"]

  /** The first Take stops at the end of chunk one; the cursor moves to the
      start of chunk two. */
  lemma SplitFirstStep()
    ensures Take(Ascii, New(SplitBuffer)) == Step(Token(Text, "ab"), Reader(SplitBuffer, Position(1, 0), None))
  {
    assert Flatten(SplitBuffer[..1]) == "ab" by {
      assert SplitBuffer[..1] == ["ab"];
      FlattenSplit(["ab"], 0);
    }
    TakeAt(Ascii, SplitBuffer, Position(0, 0), Token(Text, "ab"), Position(1, 0));
  }

  /** The second Take reads chunk two and reaches the end marker. */
  lemma SplitSecondStep()
    ensures Take(Ascii, Reader(SplitBuffer, Position(1, 0), None))
            == Step(Token(Text, "cd"), Reader(SplitBuffer, Position(1, 2), None))
  {
    assert Flatten(SplitBuffer[..1]) == "ab" by {
      assert SplitBuffer[..1] == ["ab"];
      FlattenSplit(["ab"], 0);
    }
    TakeAt(Ascii, SplitBuffer, Position(1, 0), Token(Text, "cd"), Position(1, 2));
  }

  /** "ab" followed by "cd" in a second chunk: two Text tokens, not one, since
      a run stops at the end of its chunk. */
  lemma ChunkBoundarySplitsRun()
    ensures TakeAll(Ascii, New(["ab", "cd"])) == [Token(Text, "ab"), Token(Text, "cd")]
  {
    SplitFirstStep();
    SplitSecondStep();
    NothingAtEnd(Ascii, SplitBuffer);
    assert TakeAll(Ascii, Reader(SplitBuffer, Position(1, 0), None)) == [Token(Text, "cd")];
  }

  /** The same letters in one chunk form a single Text token. */
  lemma OneChunkKeepsRun()
    ensures TakeAll(Ascii, New(["abcd"])) == [Token(Text, "abcd")]
  {
    var b := ["abcd"];
    SingleChunk(b, Position(0, 0));
    SingleChunk(b, Position(0, 4));
    TakeAt(Ascii, b, Position(0, 0), Token(Text, "abcd"), Position(0, 4));
    NothingAtEnd(Ascii, b);
  }

  /** An empty buffer yields the sentinel straight away, whether it has no
      chunk at all (a default sequence) or one empty chunk (the empty
      sequence). */
  lemma EmptyBuffer<C>(cls: Classifier<C>)
    ensures Take(cls, New([])).token == Default()
    ensures TakeAll(cls, New([])) == []
    ensures Take(cls, New([[]])).token == Default()
    ensures TakeAll(cls, New([[]])) == []
  {
  }

  /** A UTF-16 code unit: the character type the scanner actually works on. */
  newtype CodeUnit = x: int | 0 <= x < 0x1_0000

  predicate IsLetterUnit(u: CodeUnit) { 0x41 <= u <= 0x5A || 0x61 <= u <= 0x7A }

  predicate IsDigitUnit(u: CodeUnit) { 0x30 <= u <= 0x39 }

  predicate IsBlankUnit(u: CodeUnit) { u == 0x20 }

  /** The example classifier again, over code units. */
  const AsciiUnits: Classifier<CodeUnit> := Classifier(IsLetterUnit, IsDigitUnit, IsBlankUnit)

  /** U+1F600 encoded in UTF-16: a high and a low surrogate. */
  const SurrogatePair: seq<CodeUnit> := [0xD83D, 0xDE00]

  /** The scanner works one code unit at a time: a character outside the
      Basic Multilingual Plane that the classifier calls Other becomes two
      one-unit Other tokens, one per surrogate. */
  lemma SurrogatePairIsTwoTokens()
    ensures TakeAll(AsciiUnits, New([SurrogatePair])) ==
            [Token(Other, [0xD83D]), Token(Other, [0xDE00])]
  {
    assert SurrogatePair[0..] == SurrogatePair && SurrogatePair[1..] == [0xDE00];
    NothingAtEnd(AsciiUnits, [SurrogatePair]);
    TakeAllInChunk(AsciiUnits, SurrogatePair, 1, Token(Other, [0xDE00]), 2);
    TakeAllInChunk(AsciiUnits, SurrogatePair, 0, Token(Other, [0xD83D]), 1);
  }
}
