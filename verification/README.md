# Wealth of Nations reader, modelled in Dafny

The program reads the text of *The Wealth of Nations* into a tree of books,
chapters and paragraphs, then has a language model summarise it bottom-up.
This project models its two deterministic parts and proves properties of
them.

1. **The line parser** (`WealthOfNations::new` and the `add_*` helpers of
   `src/parser.rs`). The input is the sequence of raw lines as `read_line`
   returns them, each still carrying its `\n`. Each line is classified in
   the source's order:
   - a line with the `BOOK` prefix opens a book;
   - a line with the `CHAPTER` prefix opens a chapter;
   - any other line is a paragraph if its UTF-8 byte length is at least 70;
   - the remaining lines are skipped.

   A marker also reads the next raw line into its title, and that line is
   never classified itself, even when it is a marker. The parse is a
   pure fold (`Parser.ParseFrom`) returning a `Result`. Where the source's
   `unwrap()` would panic on a missing book or chapter, the model returns a
   `ParseError` naming the line and the missing level.
2. **The summarisation traversal** (`src/reader.rs`). The language model is
   an oracle `generate: string -> Result<string, LlmError>`. It is held in a
   `Summarizer` value together with the two prompt templates. Each traversal
   function returns its result and a log of every `(prompt, reply)` call it
   made, in order. `summarize_chapter` and `summarize_book` share one loop
   shape, `Reader.Rolling`. Each item is summarised with the rolling
   context: the earlier siblings' summaries, each followed by `"\n\n"`. The
   first failure ends the loop.

Modules:
- `Wrappers`: `Result` with `:-` support.
- `Text`: Rust's `trim` (Unicode `White_Space`), `starts_with`, `String::len` as a UTF-8 byte count, and splitting text into `read_line` chunks.
- `Parser`: the tree, the `add_*` operations and the line loop.
- `Outline`: an independent description of the parse. It defines the token stream of the lines, the outline of a tree and well-formedness, and proves that the parser agrees with them.
- `Reader`: the traversal.
- `ReaderProofs`: the rolling contexts in closed form, the call logs, call counts and abort behaviour.

Points where the code behaves differently from what a reader might assume:
- **Marker titles.** The code trims the marker line, appends the next raw
  line to it with `read_line`, and trims again (`src/parser.rs:34-37`,
  `42-45`). The stored title is therefore `trim(marker)` directly followed
  by the next line with only its end trimmed: there is no separator, and
  the next line's leading whitespace is kept (`Parser.MarkerTitleShape`).
- **Length threshold.** The test at `src/parser.rs:49` is `String::len()`,
  a UTF-8 byte count, on a buffer that still holds the line's `\n`.
- **Missing parents.** The code panics in `unwrap()` at
  `src/parser.rs:66`, `70` and `86`. The model returns a `ParseError`
  naming the line and the missing level.

## Model

| member | source | states |
|---|---|---|
| Text.TrimSpec | src/parser.rs:51 | `trim` removes exactly a whitespace prefix and a whitespace suffix. What is left is a contiguous slice of the input that neither starts nor ends with whitespace. |
| Text.TrimIdempotent | src/parser.rs:34-37 | Trimming an already trimmed string changes nothing. |
| Text.Utf8Len | src/parser.rs:49 | The byte length of a string lies between its character count and four times that count. |
| Text.AsciiUtf8Len | src/parser.rs:49 | On ASCII text, the byte length equals the character count. |
| Text.Utf8LenAppend | src/parser.rs:49 | Byte length is additive over concatenation. |
| Text.ReadLines | src/parser.rs:32 | Splitting text into `read_line` chunks loses nothing: the chunks concatenate back to the text. Every chunk is non-empty, holds no `\n` before its end, and every chunk but the last ends in `\n`. |
| Text.ReadLinesOfConcat | src/parser.rs:32 | Any such sequence of lines is split back into itself, so text and line sequences correspond one to one. |
| Parser.AddParagraphToChapter | src/parser.rs:97-99 | The chapter gains the paragraph at its end. Its title and earlier paragraphs are unchanged. |
| Parser.AddChapterToBook | src/parser.rs:81-83 | The book gains the chapter at its end. Its title and earlier chapters are unchanged. |
| Parser.AddParagraphToBook | src/parser.rs:85-87 | Succeeds exactly when the book has a chapter, and otherwise fails with `NoChapter`. On success only the last chapter changes, gaining the paragraph at its end. |
| Parser.AddBook | src/parser.rs:61-63 | The document gains the book at its end. Earlier books are unchanged. |
| Parser.AddChapter | src/parser.rs:65-67 | Succeeds exactly when a book exists, and otherwise fails with `NoBook`. On success only the last book changes, gaining the chapter at its end. |
| Parser.AddParagraph | src/parser.rs:69-71 | Succeeds exactly when the last book has a chapter. Otherwise it fails with `NoBook` if there is no book, and with `NoChapter` if the last book has no chapters. On success only the last chapter of the last book changes, gaining the paragraph at its end. |
| Parser.Step | src/parser.rs:33-55 | One turn of the loop, stated per raw-line case. A `BOOK` line appends an empty book titled by its marker title. A `CHAPTER` line appends an empty chapter to the last book, or fails at that line with `NoBook`. A non-marker line of at least 70 bytes appends its trimmed text to the last chapter, or fails at that line with the missing level. A shorter line leaves the tree unchanged. |
| Parser.ThresholdBoundary | src/parser.rs:49 | An ASCII non-marker line of 69 bytes, newline included, is skipped. One of 70 bytes is a paragraph. |
| Parser.MarkerTitleShape | src/parser.rs:34-37 | The stored title is the trimmed marker line directly followed by the next raw line with only its end trimmed. If there is no next line, the title is the trimmed marker alone. |
| Parser.ParseTextOfLines | src/parser.rs:32-56 | Parsing the text of a file is parsing the lines it consists of. |
| Outline.TokensInOrder | src/parser.rs:32-56 | The loop acts on the lines in increasing order. Each token carries its own line's item. A marker's token is followed by the next token at least two lines later. |
| Outline.TokenKinds | src/parser.rs:33-49 | Classification precedence, per token: a token is a book exactly when its line has the `BOOK` prefix, and a chapter exactly when its line has `CHAPTER` but not `BOOK`, whatever the length. Only the tokens of other lines are paragraphs. A line read into a marker's title, even a marker line, yields no token. |
| Outline.TokensCoverLines | src/parser.rs:32-55 | Every line reached is one of three things: a token, a skipped line, or the title line of the marker just before it. |
| Outline.TitleLinesAreConsumed | src/parser.rs:35-43 | The line after a marker is read into the title and never becomes a marker or paragraph of its own. |
| Outline.ParseIsBuild | src/parser.rs:32-56 | The line loop builds exactly the tree obtained by applying each token's `add_*` call in order. |
| Outline.BuildMatchesOutline | src/parser.rs:61-99 | Building from tokens succeeds exactly on streams where every chapter comes after some book, and every paragraph comes after a chapter of the current book (with no book token in between). On success, the tree's books, chapters and paragraphs, read in order, are exactly the token stream. |
| Outline.BuildFailsAtFirstOrphan | src/parser.rs:65-71 | A failed build reports the first token without a parent, at its line, with the missing level. |
| Outline.ParseMatchesOutline | src/parser.rs:24-58 | `Parser.Parse` (`WealthOfNations::new` on the file's lines, the fold `Parser.ParseFrom`) succeeds exactly on well-formed token streams. A parsed tree lists titles and paragraphs in file order. A failure is the error of the first orphan token. |
| Outline.ParseCounts | src/parser.rs:61-99 | A parsed tree has as many books, chapters and paragraphs as there are tokens of each kind. Lines read into a marker's title are not tokens and are not counted. |
| Reader.Ask | src/reader.rs:98 | One generator call, logged with its prompt and the oracle's reply. The run succeeds exactly when the reply does, with the reply's text. |
| Reader.SummarizeParagraph | src/reader.rs:103-126 | Exactly one call, whose prompt is the paragraph template filled with the previous summaries and then the paragraph's content. On success the paragraph summary is that call's reply. |
| Reader.Rolling | src/reader.rs:53-57 | The loop takes at most one turn per item, and one per item on success. On failure the result is the last turn's failure. |
| ReaderProofs.SummarizeLinesCalls | src/reader.rs:129-140 | `Reader.SummarizeLines`, `Reader::summarize` from the raw lines. A document the parser refuses reports the parse error and makes no generator call. Otherwise the log is faithful and stops at the first failed call. A successful run makes exactly one call per paragraph token plus one per chapter token. Lines read into a marker's title, even marker lines, are not tokens and cause no call. |
| ReaderProofs.RollingContextAppend | src/reader.rs:55-56 | The rolling context of two runs of summaries is the concatenation of their contexts. |
| ReaderProofs.RollingContexts | src/reader.rs:51-57 | Turn `k` of a rolling loop receives the starting text followed by the rolling context of the summaries of turns `0..k-1`. |
| ReaderProofs.RollingSteps | src/reader.rs:53-54 | Turn `k` runs the summarising step on item `k` with that context, and every turn before the last succeeded. |
| ReaderProofs.RollingOutcome | src/reader.rs:53-59 | On success every item had its turn, every turn succeeded, and the result is the starting text followed by the rolling context of all summaries. On failure the result is the last turn's. |
| ReaderProofs.LogsFaithful | src/reader.rs:54 | A loop's calls are the oracle's true answers and stop at the first failure, whose error becomes the loop's error. |
| ReaderProofs.ParagraphTurn | src/reader.rs:67-75 | Paragraph `k` is one faithful call. Its context is the rolling context of the summaries of paragraphs `0..k-1` of the same chapter, so it is empty for every chapter's first paragraph. |
| ReaderProofs.ChapterParagraphCalls | src/reader.rs:67-75 | `Reader.SummarizeChapter` (`summarize_chapter`) makes at most one call per paragraph plus one. Call `k` below the paragraph count is paragraph `k`'s. Its prompt embeds the rolling context of the replies to the calls before it, then paragraph `k`'s content. |
| ReaderProofs.ChapterCall | src/reader.rs:77-100 | If `Reader.SummarizeChapter` logs one call more than there are paragraphs, that last call is the chapter's. Its prompt embeds `previous`, then the rolling context of all paragraph replies. A successful chapter made that call, and its summary is the reply. |
| ReaderProofs.ChapterFaithful | src/reader.rs:69-98 | `Reader.SummarizeChapter` logs the oracle truthfully and makes no call after the first failure, and that failure's error is the chapter's error. So the chapter call happens only after every paragraph call succeeded. |
| ReaderProofs.ChapterContexts | src/reader.rs:50-57 | Chapter `k` is summarised with the rolling context of the summaries of chapters `0..k-1` of the same book, so the context is empty for every book's first chapter. The book's log is the chapters' logs in order. |
| ReaderProofs.BookResult | src/reader.rs:50-59 | A successful `Reader.SummarizeBook` (`summarize_book`) summarised every chapter and returns the rolling context of all chapter summaries. A book with no chapters yields `""` and makes no call. |
| ReaderProofs.BookCalls | src/reader.rs:50-60 | `Reader.SummarizeBook` is faithful and stops at the first failure. On success it made one call per paragraph and one per chapter. |
| ReaderProofs.BooksCalls | src/reader.rs:134-139 | The book loop succeeds exactly when every book does. It then returns the starting text followed by each book's own result in order, and its calls are each book's calls in order. |
| ReaderProofs.BooksFaithful | src/reader.rs:134-137 | The book loop is faithful and stops at the first failed call. |
| ReaderProofs.DocumentCalls | src/reader.rs:129-140 | `Reader.Summarize` (`Reader::summarize` on a parsed document) succeeds exactly when every book does. It returns the concatenation of the books' own results, with no context passed between books. It is faithful and stops at the first failure. On success it made exactly `#paragraphs + #chapters` calls, in depth-first order. |

## Left out

- File opening, the hard-coded data path and `BufReader` I/O (`src/parser.rs:24-32`): the input is a given text or line sequence.
- The `?` on the title read (`src/parser.rs:35`, `43`) and the loop condition that ends silently on a read error (`src/parser.rs:32`): read errors are not modelled, and text is a sequence of Unicode scalar values, so invalid UTF-8 cannot arise.
- ReaderProofs.SummarizeLinesCalls: the source's parse step can fail only with an I/O error, wrapped at `src/reader.rs:131`; a missing parent panics instead. The model routes the parse error for a missing parent through `Malformed`, and has no I/O error.
- `src/llm.rs` is not part of this model. The Ollama client and its JSON decoding are the `generate` oracle, whose two error kinds are kept as `LlmError`. The real `LLM::generate` also sends the JSON schema of the expected notes type, which differs between paragraph and chapter calls; the oracle sees only the prompt, so it answers the same prompt the same way whichever schema the source would send.
- Prompt wording: each `format!` template is a `Template` of three opaque fragments around its two arguments. Nothing is stated about generated text.
- `src/main.rs` and `src/logger.rs` are not part of this model. They hold only the runtime entry point and logging setup.
- `async`/`await`: the traversal awaits one call at a time, and the model treats it as sequential.
- Retry, book-level synthesis and incremental output writing: these do not exist in the code.
