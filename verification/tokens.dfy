/**
  Tokens, their kinds, and the classification rules of the scanner. The three
  character predicates (Token.IsText, Token.IsNumber, Token.IsWhiteSpace) are
  kept uninterpreted: they are the fields of a Classifier value.
 */
module Tokens {

  /** End is the kind of the default token, the end-of-input sentinel. */
  datatype TokenKind = End | Text | Number | Space | Other

  datatype Token<C> = Token(kind: TokenKind, text: seq<C>)

  /** The default token: end sentinel with empty text. */
  function Default<C>(): Token<C> {
    Token(End, [])
  }

  /** The sentinel is the only token with empty text. */
  predicate WellShaped<C>(t: Token<C>) {
    t.kind == End <==> |t.text| == 0
  }

  datatype Classifier<-C> = Classifier(isText: C -> bool, isNumber: C -> bool, isWhiteSpace: C -> bool)

  /** Classification of a first character, by fixed precedence:
      Text, then Number, then Space, and Other for everything else. */
  function Classify<C>(cls: Classifier<C>, c: C): TokenKind {
    if cls.isText(c) then Text
    else if cls.isNumber(c) then Number
    else if cls.isWhiteSpace(c) then Space
    else Other
  }

  /** run is the longest prefix of span whose characters all satisfy pred. */
  ghost predicate IsMaximalRun<C>(span: seq<C>, pred: C -> bool, run: seq<C>) {
    && |run| <= |span|
    && span[..|run|] == run
    && (forall i :: 0 <= i < |run| ==> pred(run[i]))
    && (|run| < |span| ==> !pred(span[|run|]))
  }

  /** The scanning rules: token t is what the reader must produce for the
      non-empty contiguous view `view` at the cursor. */
  ghost predicate ScanRule<C>(cls: Classifier<C>, view: seq<C>, t: Token<C>) {
    && |view| >= 1
    && t.kind == Classify(cls, view[0])
    && 1 <= |t.text| <= |view|
    && view[..|t.text|] == t.text
    && (t.kind == Text ==> IsMaximalRun(view, cls.isText, t.text))
    && (t.kind == Number ==> IsMaximalRun(view, cls.isNumber, t.text))
    && (t.kind == Space || t.kind == Other ==> |t.text| == 1)
  }

  /** A span has only one maximal run for a predicate. */
  lemma MaximalRunUnique<C>(span: seq<C>, pred: C -> bool, a: seq<C>, b: seq<C>)
    requires IsMaximalRun(span, pred, a) && IsMaximalRun(span, pred, b)
    ensures a == b
  {
  }

  /** The scanning rules leave no freedom: they determine the token. */
  lemma ScanRuleDeterministic<C>(cls: Classifier<C>, view: seq<C>, a: Token<C>, b: Token<C>)
    requires ScanRule(cls, view, a) && ScanRule(cls, view, b)
    ensures a == b
  {
    if a.kind == Text {
      MaximalRunUnique(view, cls.isText, a.text, b.text);
    } else if a.kind == Number {
      MaximalRunUnique(view, cls.isNumber, a.text, b.text);
    }
  }

  /** The texts of a token sequence laid end to end. */
  function Concat<C>(ts: seq<Token<C>>): seq<C> {
    if |ts| == 0 then [] else ts[0].text + Concat(ts[1..])
  }
}
