# TokenReader: a verified model of SmtpServer's token scanner

This project models the single-lookahead lexical scanner `TokenReader` of
SmtpServer (`Src/SmtpServer/Text/TokenReader.cs`). The scanner reads a chunked
character buffer (a `ReadOnlySequence<char>`) and turns it into classified
tokens: `Text`, `Number`, `Space` and `Other`. When the input runs out it
returns the default token, an end sentinel with empty text. Callers use
`Peek` to look at the next token without consuming it, and `Take` to consume it.

Modules, leaves first:

- `Options` (`options.dfy`): the optional value used for the lookahead slot.
- `Buffers` (`buffers.dfy`): the chunked buffer as `seq<seq<C>>`, where `C` is the character type (see the design notes).
  - A position is a `(segment, index)` pair, like `SequencePosition`.
  - `EndPosition` is the buffer's `End`.
  - `TryGet` returns the view from a position to the end of its own chunk, not of the buffer.
  - `Seek` is `GetPosition(n, p)`.
  - `Offset` maps a position to its index in the concatenated content.
  - `Flatten` is that concatenated content.
- `Tokens` (`tokens.dfy`): `TokenKind`, `Token` and the default token.
  - The classifier is a record of the three predicates `IsText`, `IsNumber` and `IsWhiteSpace`. They are left uninterpreted.
  - `Classify` applies them in the fixed precedence order.
  - `ScanRule` states the rules a token read at a view must obey.
- `TokenReader` (`token_reader.dfy`): the reader state and its operations.
  - The state is the buffer, the cursor and an optional peeked token.
  - Operations: `New` (the constructor), `ReadWhile`, `ReadOne`, `ReadToken`, `ConsumeToken`, `Peek` and `Take`.
  - Lemmas cover the lookahead cache and the sticky end sentinel.
- `TokenStream` (`token_stream.dfy`): `TakeAll` calls `Take` until the sentinel.
  - Tokenisation is lossless for every well-formed buffer, not only single-chunk ones.
  - A Text or Number token ends at the end of its chunk or just before a character that breaks its run, in any buffer.
  - So in a one-chunk buffer, Text and Number runs are never split.
- `Scenarios` (`scenarios.dfy`): concrete tokenisations under an example ASCII classifier.
  - `"ab12 c!"` in one chunk.
  - `"ab"` + `"cd"` in two chunks, which splits into two Text tokens.
  - `"abcd"` in one chunk, which stays a single Text token.
  - The empty buffer, with no chunk or with one empty chunk.
  - A surrogate pair, over a UTF-16 code unit type, which becomes two tokens.

The reader is an immutable value. `Peek`, `Take` and `ConsumeToken` each
return the token and the reader's next state together as a `Step`. The
classifier is passed as a parameter because the source's predicates are
static members of `Token`.

## Design notes

- The character type is a type parameter `C`. The source's `char` is a
  UTF-16 code unit, not a Unicode scalar value, so Dafny's own `char` is not
  a faithful stand-in. Every operation and property is stated for any `C`.
  The scenarios instantiate `C` with Dafny's `char` for readable ASCII
  examples. They also instantiate it with `Scenarios.CodeUnit`, the integers
  below `0x10000`, to show that a character outside the Basic Multilingual
  Plane reaches the classifier as two separate surrogates
  (`Scenarios.SurrogatePairIsTwoTokens`).

- Chunk-boundary truncation is kept as written. `ReadWhile` scans only the
  view of the current chunk (lines 74, 79 and 95-104). A run of letters split
  across two chunks therefore yields two tokens
  (`Scenarios.ChunkBoundarySplitsRun`). The same letters in one chunk yield
  one token (`Scenarios.OneChunkKeepsRun`). It cannot be told from the code
  whether this is intended, so the model keeps it and documents it.
- The source stores the lookahead as two fields: `_peek` and `_hasPeeked`.
  `Take` clears `_hasPeeked` but leaves a stale `_peek` behind, and nothing
  can observe it. The model uses `Option<Token>`. This gives an exact
  equation: the state after `Peek; Take` equals the state after a lone `Take`.
- Positions follow `ReadOnlySequence` as the reader relies on it. Advancing
  to exactly the end of a chunk that is not the last moves to index 0 of the
  next chunk. On the last chunk it stays at `(last, length)`, which is `End`.
  So every position the reader holds is either `End` or strictly inside a
  chunk. That is why `span[0]` (line 80) is always defined.

## Model

| member | source | states |
|---|---|---|
| Buffers.StartPosition | Src/SmtpServer/Text/TokenReader.cs:20 | The first position of a buffer is a valid position at content offset 0. |
| Buffers.Offset | Src/SmtpServer/Text/TokenReader.cs:11 | A cursor lies within the content, and lies at its very end exactly when it equals the buffer's `End`. |
| Buffers.OffsetInjective | Src/SmtpServer/Text/TokenReader.cs:74 | Two valid positions are equal if and only if they lie at the same content offset. So comparing a cursor with `End` is the same as asking whether all content is consumed. |
| Buffers.TryGet | Src/SmtpServer/Text/TokenReader.cs:74 | At a valid cursor other than `End`, the view exists and is non-empty. It is a prefix of the content that starts at the cursor, and it ends exactly at the end of the cursor's chunk. |
| Buffers.Seek | Src/SmtpServer/Text/TokenReader.cs:63 | Advancing a cursor by n characters that remain gives a valid position exactly n characters further on. |
| Buffers.SingleChunk | Src/SmtpServer/Text/TokenReader.cs:74-79 | In a one-chunk buffer the content is that chunk, and a position's offset is its index. |
| Tokens.MaximalRunUnique | Src/SmtpServer/Text/TokenReader.cs:95-104 | A span has exactly one longest prefix satisfying a predicate. |
| Tokens.ScanRuleDeterministic | Src/SmtpServer/Text/TokenReader.cs:80-109 | The scanning rules pin down a single token: kind by precedence, maximal run for Text/Number, one character for Space/Other. |
| TokenReader.New | Src/SmtpServer/Text/TokenReader.cs:17-23 | A new reader has nothing cached. Its cursor is at offset 0, and on a well-formed buffer it satisfies the reader invariant. |
| TokenReader.CountWhile | Src/SmtpServer/Text/TokenReader.cs:97-101 | The counting loop stops within the span. Every character it passed satisfies the predicate, and it stops only at the span's end or at a character that fails it. |
| TokenReader.ReadWhile | Src/SmtpServer/Text/TokenReader.cs:95-104 | The result is the longest prefix of the span whose characters all satisfy the predicate. |
| TokenReader.ReadToken | Src/SmtpServer/Text/TokenReader.cs:72-93 | The token is the empty-text sentinel exactly when the cursor is at `End` or no view exists. Any other token obeys the scanning rules on the view. It lies inside the cursor's chunk, and it is never empty. |
| TokenReader.ReadTokenIsContent | Src/SmtpServer/Text/TokenReader.cs:74-92 | On a valid cursor the sentinel appears exactly at the end of the buffer. Any token's text is the content that starts at the cursor. |
| TokenReader.ConsumeToken | Src/SmtpServer/Text/TokenReader.cs:59-66 | Returns the token read at the cursor and advances the cursor by exactly its length. Nothing else in the reader changes. |
| TokenReader.Peek | Src/SmtpServer/Text/TokenReader.cs:29-38 | Peek on a primed reader returns the cached token and changes nothing. On a clean reader it reads a token, advances by its length and caches it. It keeps the reader invariant. |
| TokenReader.Take | Src/SmtpServer/Text/TokenReader.cs:44-53 | Take on a primed reader returns the cached token and clears the cache without moving the cursor. On a clean reader it reads and advances. It always leaves the reader clean and valid. |
| TokenReader.PeekIsIdempotent | Src/SmtpServer/Text/TokenReader.cs:29-38 | A second Peek returns the same token and the same reader state as the first. |
| TokenReader.TakeAfterPeek | Src/SmtpServer/Text/TokenReader.cs:44-53 | Take after Peek returns the peeked token and leaves the reader exactly as a lone Take would, so the cursor moves only once. |
| TokenReader.PeekTimes | Src/SmtpServer/Text/TokenReader.cs:29-38 | After any number (at least one) of Peek calls, the reader is valid and holds the returned token in its cache. |
| TokenReader.PeekTimesIsPeek | Src/SmtpServer/Text/TokenReader.cs:29-38 | Peeking k times, for k at least 1, has the same result as peeking once. |
| TokenReader.PeeksThenTake | Src/SmtpServer/Text/TokenReader.cs:29-53 | Take after one or more Peek calls returns the peeked token and ends where a lone Take ends. |
| TokenReader.EndIsSticky | Src/SmtpServer/Text/TokenReader.cs:63-77 | Once Take yields the sentinel, the cursor is at `End`. Every further Take returns the default token and leaves the reader unchanged, and every further Peek returns the default token. |
| TokenStream.TakeCached | Src/SmtpServer/Text/TokenReader.cs:46-50 | Taking a cached token hands out exactly the cached text and leaves the unread content as it was. A cached sentinel means nothing is owed. |
| TokenStream.TakeFresh | Src/SmtpServer/Text/TokenReader.cs:52-66 | Taking from a clean reader hands out exactly the content at the cursor, and what is still owed is the rest. A sentinel means nothing is left. |
| TokenStream.TakeHandsOutContent | Src/SmtpServer/Text/TokenReader.cs:44-66 | Each Take hands out exactly the front of what is still owed: the cached text plus the unread content. A sentinel means nothing is owed. Any other token strictly shrinks what is owed. |
| TokenStream.TakeAll | Src/SmtpServer/Text/TokenReader.cs:44-109 | Every token before the sentinel is a real token with at least one character: each Take makes progress until the end. |
| TokenStream.TakeAllSpellsOwed | Src/SmtpServer/Text/TokenReader.cs:44-109 | The token texts before the sentinel, concatenated, are exactly the cached text plus the rest of the buffer. |
| TokenStream.Lossless | Src/SmtpServer/Text/TokenReader.cs:17-109 | The token texts of a fresh reader, taken up to the sentinel, reproduce the whole buffer's content. |
| TokenStream.LosslessSingleChunk | Src/SmtpServer/Text/TokenReader.cs:17-109 | For a single-chunk buffer, the token texts reproduce that chunk. |
| TokenStream.RunEndsAtBreakInChunk | Src/SmtpServer/Text/TokenReader.cs:74-104 | In any buffer, if the Take after a Text or Number token starts inside the same chunk, it yields a token of another kind: a run ends only at a breaking character or at its chunk's end. |
| TokenStream.RunEndsAtBreak | Src/SmtpServer/Text/TokenReader.cs:82-86 | In a one-chunk buffer, the Take after a Text token does not yield Text, and the Take after a Number token does not yield Number. |
| TokenStream.RunsAreWholeInOneChunk | Src/SmtpServer/Text/TokenReader.cs:95-104 | For a clean reader over one chunk, a Text token is never followed by a Text token, and a Number token never by a Number token. |
| TokenStream.RunsAreWholeInSingleChunk | Src/SmtpServer/Text/TokenReader.cs:95-104 | The same holds for the full token stream of any single-chunk buffer. |
| Scenarios.TakeAt | Src/SmtpServer/Text/TokenReader.cs:59-93 | A clean reader takes the token the scanning rules prescribe and lands at the position that many characters on. |
| Scenarios.NothingAtEnd | Src/SmtpServer/Text/TokenReader.cs:74-77 | A clean reader at `End` yields no tokens before the sentinel. |
| Scenarios.TakeInChunk | Src/SmtpServer/Text/TokenReader.cs:59-93 | In a one-chunk buffer, a clean reader at index i takes the token the scanning rules prescribe for the rest of the chunk, and moves to i plus its length. |
| Scenarios.TakeAllInChunk | Src/SmtpServer/Text/TokenReader.cs:44-93 | The same step seen in the token stream: that token, followed by the stream from the new index. |
| Scenarios.MixedLineRules | Src/SmtpServer/Text/TokenReader.cs:80-109 | Under the example classifier, the scanning rules prescribe `ab`, `12`, ` `, `c` and `!` at indexes 0, 2, 4, 5 and 6 of `"ab12 c!"`. |
| Scenarios.MixedLineTail | Src/SmtpServer/Text/TokenReader.cs:80-109 | From index 4, `"ab12 c!"` scans as Space, Text `c`, Other `!`. |
| Scenarios.MixedLineFromNumber | Src/SmtpServer/Text/TokenReader.cs:80-109 | From index 2, `"ab12 c!"` scans as Number `12`, Space, Text `c`, Other `!`. |
| Scenarios.MixedLine | Src/SmtpServer/Text/TokenReader.cs:80-109 | `"ab12 c!"` scans as Text `ab`, Number `12`, Space, Text `c`, Other `!`. |
| Scenarios.SplitFirstStep | Src/SmtpServer/Text/TokenReader.cs:74-104 | In `"ab"` + `"cd"`, the first Take stops at the end of chunk one and moves the cursor to the start of chunk two. |
| Scenarios.SplitSecondStep | Src/SmtpServer/Text/TokenReader.cs:74-104 | The second Take reads `cd` and reaches `End`. |
| Scenarios.ChunkBoundarySplitsRun | Src/SmtpServer/Text/TokenReader.cs:74-104 | `"ab"` + `"cd"` in two chunks yields two Text tokens, `ab` and `cd`, not one. |
| Scenarios.OneChunkKeepsRun | Src/SmtpServer/Text/TokenReader.cs:95-104 | `"abcd"` in one chunk yields the single Text token `abcd`. |
| Scenarios.EmptyBuffer | Src/SmtpServer/Text/TokenReader.cs:74-77 | An empty buffer yields the sentinel at once, with no tokens before it. This holds both with no chunk and with one empty chunk. |
| Scenarios.SurrogatePairIsTwoTokens | Src/SmtpServer/Text/TokenReader.cs:80-92 | Over UTF-16 code units, the encoding of U+1F600 scans as two one-unit Other tokens, one per surrogate: the scanner classifies code units, not Unicode characters. |

## Left out

- `Src/SmtpServer/ComponentModel/ServiceProvider.cs`: a type-keyed registry of factories with no scanning logic. It relies on runtime type reflection.
- The bodies of `Token.IsText`, `Token.IsNumber` and `Token.IsWhiteSpace`: `Token.cs` is not part of this model. The three predicates are arbitrary total functions held in a `Classifier`. The scenarios use an example ASCII classifier, not the system's own.
- The internals of `ReadOnlySequence<char>` and `SequencePosition`: they are modelled by `Buffers`. Every chunk except the last must be non-empty (`Buffers.WellFormed`). The library skips empty middle segments when seeking; the model rules them out instead.
- Buffers.Seek: `GetPosition` throws when asked to move past the end. The model makes that a precondition. The reader only moves by the length of a token inside the current view, so it never asks for more.
- Token text is modelled as a copy of the characters (`seq<C>`), not as a borrowed `ReadOnlySpan<char>`. Zero-copy behaviour, `ref struct` lifetime and span safety are runtime memory concerns. `ReadToken` states instead that the text equals the slice of the current chunk at the cursor.
- The mutable `ref struct` is modelled as an immutable state value that each operation returns alongside its token.
- The commented-out `Checkpoint`, `Restore` and `Slice` (lines 111-130) are dead code and are not modelled.
- TokenReader.ReadOne carries no contract of its own. Its one-character result is stated by `ReadToken` through `ScanRule`.
