/**
 The summarisation traversal of `src/reader.rs`. The language model is an
 oracle `generate` from prompt to reply, held by the `Summarizer` together with
 the two prompt templates; every call the traversal makes is recorded, in
 order, as an `Exchange` in the log of the returned `Run`.

 Chapters within a book and paragraphs within a chapter are summarised by
 the same loop shape (`Rolling`): each item is summarised with the
 summaries of the items before it as context, each followed by a blank
 line, and the first failure ends the loop.
 */
module Reader {
  import opened Wrappers
  import opened Text
  import opened Parser

  /** `LLMError`: the Ollama call failed, or its answer did not decode into the notes record. */
  datatype LlmError = Ollama(detail: string) | SerdeJson(detail: string)

  /** `ReaderError`: a failed generator call, or a document the parser refused. */
  datatype ReaderError = Llm(cause: LlmError) | Malformed(parseError: ParseError)

  /** One generator call: the prompt sent and what came back. */
  datatype Exchange = Exchange(prompt: string, reply: Result<string, LlmError>)

  /** The outcome of a piece of the traversal, with every generator call it made, in order. */
  datatype Run = Run(result: Result<string, ReaderError>, log: seq<Exchange>)

  /** One turn of a rolling loop: the context it was given and what the summarising step did. */
  datatype Pass = Pass(context: string, run: Run)

  /** A rolling loop: its outcome and its turns, in order. */
  datatype Fold = Fold(result: Result<string, ReaderError>, passes: seq<Pass>)

  /** A `format!` template with two holes: head, first argument, middle, second argument, tail. */
  datatype Template = Template(head: string, middle: string, tail: string)

  /** `WealthOfNationsReader`: the text generator behind `LLM::generate`, and the two prompt templates. */
  datatype Summarizer = Summarizer(
    generate: string -> Result<string, LlmError>,
    paragraphTemplate: Template,
    chapterTemplate: Template)

  /** What `push_str("\n\n")` appends after every summary. */
  const Separator: string := "\n\n"

  // ---------------------------------------------------------------------
  // Contexts, prompts and replies
  // ---------------------------------------------------------------------

  /** Summaries in order, each followed by a blank line: the rolling context. */
  function RollingContext(notes: seq<string>): string {
    if |notes| == 0 then "" else notes[0] + Separator + RollingContext(notes[1..])
  }

  /** The text a run produced, or nothing if it failed. */
  function Notes(r: Run): string {
    if r.result.Success? then r.result.value else ""
  }

  /** The summaries the turns of a loop produced, in order. */
  function Summaries(passes: seq<Pass>): (notes: seq<string>)
    ensures |notes| == |passes|
    ensures forall k :: 0 <= k < |passes| ==> notes[k] == Notes(passes[k].run)
  {
    if |passes| == 0 then [] else [Notes(passes[0].run)] + Summaries(passes[1..])
  }

  /** The text of one call's reply, or nothing if it failed. */
  function ReplyText(e: Exchange): string {
    if e.reply.Success? then e.reply.value else ""
  }

  /** The generator's replies in a log, in order (a failed reply contributes nothing). */
  function Replies(log: seq<Exchange>): (replies: seq<string>)
    ensures |replies| == |log|
    ensures forall k :: 0 <= k < |log| ==> replies[k] == ReplyText(log[k])
  {
    if |log| == 0 then [] else [ReplyText(log[0])] + Replies(log[1..])
  }

  /**
   `format!` with two arguments: the prompt holds the first argument and
   then the second, verbatim, between the template's fixed fragments.
   */
  function Fill(t: Template, first: string, second: string): (prompt: string)
    ensures |prompt| == |t.head| + |first| + |t.middle| + |second| + |t.tail|
    ensures prompt[..|t.head|] == t.head
    ensures prompt[|t.head|..|t.head| + |first|] == first
    ensures prompt[|t.head| + |first|..|t.head| + |first| + |t.middle|] == t.middle
    ensures prompt[|t.head| + |first| + |t.middle|..|prompt| - |t.tail|] == second
    ensures prompt[|prompt| - |t.tail|..] == t.tail
  {
    t.head + first + t.middle + second + t.tail
  }

  /**
   The log is a true record of the oracle, and the run stopped at the first
   failure: every logged reply is the oracle's answer to its prompt, every
   call but the last succeeded, and the run fails exactly when its last call
   did, with that call's error.
   */
  predicate Faithful(generate: string -> Result<string, LlmError>, r: Run) {
    && (forall i :: 0 <= i < |r.log| ==> r.log[i].reply == generate(r.log[i].prompt))
    && (forall i :: 0 <= i < |r.log| - 1 ==> r.log[i].reply.Success?)
    && (r.result.Success? ==> |r.log| == 0 || r.log[|r.log| - 1].reply.Success?)
    && (r.result.Failure? ==>
          && |r.log| > 0
          && r.log[|r.log| - 1].reply.Failure?
          && r.result.error == Llm(r.log[|r.log| - 1].reply.error))
  }

  // ---------------------------------------------------------------------
  // The traversal
  // ---------------------------------------------------------------------

  /** `self.llm.generate(&prompt).await.context(LLMSnafu)`: one call, its error wrapped as `ReaderError::LLM`. */
  function Ask(reader: Summarizer, prompt: string): (r: Run)
    ensures r.log == [Exchange(prompt, reader.generate(prompt))]
    ensures Faithful(reader.generate, r)
    ensures r.result.Success? <==> reader.generate(prompt).Success?
    ensures r.result.Success? ==> r.result.value == reader.generate(prompt).value
  {
    var reply := reader.generate(prompt);
    var result := match reply
      case Success(notes) => Success(notes)
      case Failure(e) => Failure(Llm(e));
    Run(result, [Exchange(prompt, reply)])
  }

  /** `summarize_paragraph`: one call, whose prompt holds the previous summaries and then the paragraph. */
  function SummarizeParagraph(reader: Summarizer, previous: string, p: Paragraph): (r: Run)
    ensures |r.log| == 1
    ensures r.log[0].prompt == Fill(reader.paragraphTemplate, previous, p.content)
    ensures Faithful(reader.generate, r)
    ensures r.result.Success? ==> r.result.value == r.log[0].reply.value
  {
    Ask(reader, Fill(reader.paragraphTemplate, previous, p.content))
  }

  /**
   The loop shape shared by `summarize_chapter` and `summarize_book`: each
   item is summarised with the accumulated text as context, its summary and
   a blank line are appended, and `?` ends the loop at the first failure.
   */
  function Rolling<T>(step: (string, T) -> Run, items: seq<T>, acc: string): (f: Fold)
    ensures |f.passes| <= |items|
    ensures f.result.Success? ==> |f.passes| == |items|
    ensures f.result.Failure? ==> |f.passes| > 0 && f.passes[|f.passes| - 1].run.result == f.result
    decreases |items|
  {
    if |items| == 0 then Fold(Success(acc), [])
    else
      var first := step(acc, items[0]);
      if first.result.Failure? then Fold(first.result, [Pass(acc, first)])
      else
        var rest := Rolling(step, items[1..], acc + first.result.value + Separator);
        Fold(rest.result, [Pass(acc, first)] + rest.passes)
  }

  /** Every generator call of a loop's turns, in order. */
  function Logs(passes: seq<Pass>): seq<Exchange> {
    if |passes| == 0 then [] else passes[0].run.log + Logs(passes[1..])
  }

  function ParagraphStep(reader: Summarizer): (string, Paragraph) -> Run {
    (context: string, p: Paragraph) => SummarizeParagraph(reader, context, p)
  }

  /** The paragraph loop of `summarize_chapter`, starting from an empty context. */
  function ParagraphPasses(reader: Summarizer, ch: Chapter): Fold {
    Rolling(ParagraphStep(reader), ch.paragraphs, "")
  }

  /**
   `summarize_chapter`: the paragraph loop, then (if it succeeded) one call
   whose prompt holds the previous chapters' summaries and then the
   accumulated paragraph summaries.
   */
  function SummarizeChapter(reader: Summarizer, previous: string, ch: Chapter): Run {
    var paragraphs := ParagraphPasses(reader, ch);
    if paragraphs.result.Failure? then Run(paragraphs.result, Logs(paragraphs.passes))
    else
      var last := Ask(reader, Fill(reader.chapterTemplate, previous, paragraphs.result.value));
      Run(last.result, Logs(paragraphs.passes) + last.log)
  }

  function ChapterStep(reader: Summarizer): (string, Chapter) -> Run {
    (context: string, ch: Chapter) => SummarizeChapter(reader, context, ch)
  }

  /** The chapter loop of `summarize_book`, starting from an empty context. */
  function ChapterPasses(reader: Summarizer, b: Book): Fold {
    Rolling(ChapterStep(reader), b.chapters, "")
  }

  /** `summarize_book`: the accumulated chapter summaries. */
  function SummarizeBook(reader: Summarizer, b: Book): Run {
    var chapters := ChapterPasses(reader, b);
    Run(chapters.result, Logs(chapters.passes))
  }

  /** The book loop of `Reader::summarize`: each book's result is appended as is, with no context passed on. */
  function SummarizeBooks(reader: Summarizer, books: seq<Book>, acc: string): Run
    decreases |books|
  {
    if |books| == 0 then Run(Success(acc), [])
    else
      var first := SummarizeBook(reader, books[0]);
      if first.result.Failure? then first
      else
        var rest := SummarizeBooks(reader, books[1..], acc + first.result.value);
        Run(rest.result, first.log + rest.log)
  }

  /** `Reader::summarize` for `WealthOfNationsReader`, on an already parsed document. */
  function Summarize(reader: Summarizer, d: Document): Run {
    SummarizeBooks(reader, d.books, "")
  }

  /** `Reader::summarize` from the raw lines: nothing is generated for a document the parser refuses. */
  function SummarizeLines(reader: Summarizer, lines: seq<string>): (r: Run)
    ensures Parse(lines).Failure? ==> r.log == [] && r.result == Failure(Malformed(Parse(lines).error))
  {
    match Parse(lines)
    case Failure(e) => Run(Failure(Malformed(e)), [])
    case Success(d) => Summarize(reader, d)
  }
}
