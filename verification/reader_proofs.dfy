/**
 What the traversal of `src/reader.rs` sends to the generator and what it
 returns, stated without reference to its accumulators: the contexts are
 rolling contexts of earlier siblings' summaries, calls happen depth-first
 and left to right, a successful run makes one call per paragraph and per
 chapter, and the first failed call ends the whole run.
 */
module ReaderProofs {
  import opened Wrappers
  import opened Text
  import opened Parser
  import opened Reader
  import opened Outline

  // ---------------------------------------------------------------------
  // Rolling contexts
  // ---------------------------------------------------------------------

  /** The rolling context of two runs of summaries is the concatenation of their contexts. */
  lemma {:induction false} RollingContextAppend(a: seq<string>, b: seq<string>)
    ensures RollingContext(a + b) == RollingContext(a) + RollingContext(b)
  {
    if |a| > 0 {
      assert (a + b)[1..] == a[1..] + b;
      RollingContextAppend(a[1..], b);
    } else {
      assert a + b == b;
    }
  }

  lemma RollingContextCons(x: string, rest: seq<string>)
    ensures RollingContext([x] + rest) == x + Separator + RollingContext(rest)
  {
    assert ([x] + rest)[1..] == rest;
  }

  // ---------------------------------------------------------------------
  // The rolling loop in closed form
  // ---------------------------------------------------------------------

  /** Turn `k` was given the starting text followed by the rolling context of the summaries of turns `0..k-1`. */
  predicate ContextsRoll(acc: string, passes: seq<Pass>) {
    forall k :: 0 <= k < |passes| ==> passes[k].context == acc + RollingContext(Summaries(passes[..k]))
  }

  /** Turn `k` ran the step on item `k` with the context it was given. */
  predicate StepsMatch<T>(step: (string, T) -> Run, items: seq<T>, passes: seq<Pass>) {
    && |passes| <= |items|
    && forall k :: 0 <= k < |passes| ==> passes[k].run == step(passes[k].context, items[k])
  }

  /** Every turn before the last succeeded. */
  predicate StopsAtFailure(passes: seq<Pass>) {
    forall k :: 0 <= k < |passes| - 1 ==> passes[k].run.result.Success?
  }

  /**
   On success every item had its turn, every turn succeeded and the result
   is the starting text followed by the rolling context of all summaries;
   on failure the result is the last turn's.
   */
  predicate Outcome<T>(items: seq<T>, acc: string, f: Fold) {
    && (f.result.Success? ==>
          && |f.passes| == |items|
          && (forall k :: 0 <= k < |f.passes| ==> f.passes[k].run.result.Success?)
          && f.result.value == acc + RollingContext(Summaries(f.passes)))
    && (f.result.Failure? ==> |f.passes| > 0 && f.passes[|f.passes| - 1].run.result == f.result)
  }

  /** The rolling loop described turn by turn, without its accumulator. */
  predicate ClosedForm<T>(step: (string, T) -> Run, items: seq<T>, acc: string, f: Fold) {
    && ContextsRoll(acc, f.passes)
    && StepsMatch(step, items, f.passes)
    && StopsAtFailure(f.passes)
    && Outcome(items, acc, f)
  }

  /** After a successful first turn, the loop is that turn followed by the loop on the rest. */
  lemma RollingUnfold<T>(step: (string, T) -> Run, items: seq<T>, acc: string)
    requires |items| > 0 && step(acc, items[0]).result.Success?
    ensures Rolling(step, items, acc).passes ==
              [Pass(acc, step(acc, items[0]))]
                + Rolling(step, items[1..], acc + step(acc, items[0]).result.value + Separator).passes
    ensures Rolling(step, items, acc).result ==
              Rolling(step, items[1..], acc + step(acc, items[0]).result.value + Separator).result
  {
  }

  /** Prepending a turn with context `acc` and summary `v` to turns that rolled from `acc + v + Separator`. */
  lemma ContextsRollCons(acc: string, p0: Pass, rest: seq<Pass>)
    requires p0.context == acc && p0.run.result.Success?
    requires ContextsRoll(acc + p0.run.result.value + Separator, rest)
    ensures ContextsRoll(acc, [p0] + rest)
  {
    var v := p0.run.result.value;
    var ps := [p0] + rest;
    forall k | 0 <= k < |ps|
      ensures ps[k].context == acc + RollingContext(Summaries(ps[..k]))
    {
      if k == 0 {
        assert ps[..0] == [];
      } else {
        assert ps[..k] == [p0] + rest[..k - 1];
        assert Summaries(ps[..k]) == [v] + Summaries(rest[..k - 1]);
        RollingContextCons(v, Summaries(rest[..k - 1]));
        assert ps[k] == rest[k - 1];
      }
    }
  }

  lemma {:induction false} RollingContexts<T>(step: (string, T) -> Run, items: seq<T>, acc: string)
    ensures ContextsRoll(acc, Rolling(step, items, acc).passes)
    decreases |items|
  {
    if |items| > 0 {
      var first := step(acc, items[0]);
      if first.result.Success? {
        var acc' := acc + first.result.value + Separator;
        RollingContexts(step, items[1..], acc');
        RollingUnfold(step, items, acc);
        ContextsRollCons(acc, Pass(acc, first), Rolling(step, items[1..], acc').passes);
      }
    }
  }

  lemma {:induction false} RollingSteps<T>(step: (string, T) -> Run, items: seq<T>, acc: string)
    ensures StepsMatch(step, items, Rolling(step, items, acc).passes)
    ensures StopsAtFailure(Rolling(step, items, acc).passes)
    decreases |items|
  {
    if |items| > 0 {
      var first := step(acc, items[0]);
      if first.result.Success? {
        var acc' := acc + first.result.value + Separator;
        var rest := Rolling(step, items[1..], acc').passes;
        RollingSteps(step, items[1..], acc');
        RollingUnfold(step, items, acc);
        var ps := [Pass(acc, first)] + rest;
        forall k | 0 < k < |ps|
          ensures ps[k] == rest[k - 1] && items[k] == items[1..][k - 1]
        {
        }
      }
    }
  }

  lemma {:induction false} RollingOutcome<T>(step: (string, T) -> Run, items: seq<T>, acc: string)
    ensures Outcome(items, acc, Rolling(step, items, acc))
    decreases |items|
  {
    if |items| > 0 {
      var first := step(acc, items[0]);
      if first.result.Success? {
        var v := first.result.value;
        var acc' := acc + v + Separator;
        var rest := Rolling(step, items[1..], acc');
        RollingOutcome(step, items[1..], acc');
        RollingUnfold(step, items, acc);
        var ps := [Pass(acc, first)] + rest.passes;
        if rest.result.Success? {
          assert Summaries(ps) == [v] + Summaries(rest.passes);
          RollingContextCons(v, Summaries(rest.passes));
          forall k | 0 < k < |ps|
            ensures ps[k] == rest.passes[k - 1]
          {
          }
        }
      }
    }
  }

  lemma RollingClosedForm<T>(step: (string, T) -> Run, items: seq<T>, acc: string)
    ensures ClosedForm(step, items, acc, Rolling(step, items, acc))
  {
    RollingContexts(step, items, acc);
    RollingSteps(step, items, acc);
    RollingOutcome(step, items, acc);
  }

  // ---------------------------------------------------------------------
  // Faithful logs compose
  // ---------------------------------------------------------------------

  /** A successful run followed by another is faithful as one run. */
  lemma SequenceFaithful(generate: string -> Result<string, LlmError>, r1: Run, r2: Run)
    requires Faithful(generate, r1) && Faithful(generate, r2) && r1.result.Success?
    ensures Faithful(generate, Run(r2.result, r1.log + r2.log))
  {
    var log := r1.log + r2.log;
    forall i | 0 <= i < |log|
      ensures log[i].reply == generate(log[i].prompt)
      ensures i < |r1.log| ==> log[i].reply.Success?
    {
      if i < |r1.log| {
        assert log[i] == r1.log[i];
      } else {
        assert log[i] == r2.log[i - |r1.log|];
      }
    }
  }

  /** The turns of a loop that stopped at its first failure form a faithful run. */
  lemma {:induction false} LogsFaithful(generate: string -> Result<string, LlmError>, passes: seq<Pass>, result: Result<string, ReaderError>)
    requires forall k :: 0 <= k < |passes| ==> Faithful(generate, passes[k].run)
    requires forall k :: 0 <= k < |passes| - 1 ==> passes[k].run.result.Success?
    requires result.Success? ==> forall k :: 0 <= k < |passes| ==> passes[k].run.result.Success?
    requires result.Failure? ==> |passes| > 0 && passes[|passes| - 1].run.result == result
    ensures Faithful(generate, Run(result, Logs(passes)))
  {
    if |passes| == 1 {
      assert Logs(passes) == passes[0].run.log;
    } else if |passes| > 1 {
      var rest := passes[1..];
      LogsFaithful(generate, rest, result);
      SequenceFaithful(generate, passes[0].run, Run(result, Logs(rest)));
    }
  }

  // ---------------------------------------------------------------------
  // summarize_chapter
  // ---------------------------------------------------------------------

  /** Each turn made exactly one call, and its summary is that call's reply. */
  predicate SingleCalls(passes: seq<Pass>) {
    forall k :: 0 <= k < |passes| ==>
      |passes[k].run.log| == 1 && Notes(passes[k].run) == ReplyText(passes[k].run.log[0])
  }

  lemma {:induction false} LogsOfSingleCalls(passes: seq<Pass>)
    requires SingleCalls(passes)
    ensures |Logs(passes)| == |passes|
    ensures forall k :: 0 <= k < |passes| ==> Logs(passes)[k] == passes[k].run.log[0]
  {
    if |passes| > 0 {
      LogsOfSingleCalls(passes[1..]);
    }
  }

  /** When each turn made one call, the summaries of the first `k` turns are the first `k` replies. */
  lemma SummariesAreReplies(passes: seq<Pass>, k: nat)
    requires SingleCalls(passes) && k <= |passes|
    ensures |Logs(passes)| == |passes|
    ensures Summaries(passes[..k]) == Replies(Logs(passes))[..k]
  {
    LogsOfSingleCalls(passes);
    forall j | 0 <= j < k
      ensures Summaries(passes[..k])[j] == Replies(Logs(passes))[..k][j]
    {
      assert passes[..k][j] == passes[j];
    }
  }

  /** The paragraph loop, turn by turn. */
  lemma ParagraphLoop(reader: Summarizer, ch: Chapter)
    ensures ClosedForm(ParagraphStep(reader), ch.paragraphs, "", ParagraphPasses(reader, ch))
  {
    RollingClosedForm(ParagraphStep(reader), ch.paragraphs, "");
  }

  /**
   Turn `k` of the paragraph loop is one faithful `summarize_paragraph`
   call whose context is the rolling context of the earlier turns' summaries.
   */
  lemma ParagraphTurn(reader: Summarizer, ch: Chapter, k: nat)
    requires k < |ParagraphPasses(reader, ch).passes|
    ensures |ParagraphPasses(reader, ch).passes[k].run.log| == 1
    ensures Notes(ParagraphPasses(reader, ch).passes[k].run) == ReplyText(ParagraphPasses(reader, ch).passes[k].run.log[0])
    ensures Faithful(reader.generate, ParagraphPasses(reader, ch).passes[k].run)
    ensures ParagraphPasses(reader, ch).passes[k].run.log[0].prompt ==
              Fill(reader.paragraphTemplate, RollingContext(Summaries(ParagraphPasses(reader, ch).passes[..k])), ch.paragraphs[k].content)
  {
    var f := ParagraphPasses(reader, ch);
    ParagraphLoop(reader, ch);
    var context := RollingContext(Summaries(f.passes[..k]));
    assert "" + context == context;
    assert f.passes[k].context == context;
    assert f.passes[k].run == ParagraphStep(reader)(context, ch.paragraphs[k]);
    assert f.passes[k].run == Ask(reader, Fill(reader.paragraphTemplate, context, ch.paragraphs[k].content));
  }

  lemma ParagraphSingleCalls(reader: Summarizer, ch: Chapter)
    ensures SingleCalls(ParagraphPasses(reader, ch).passes)
  {
    var f := ParagraphPasses(reader, ch);
    forall k | 0 <= k < |f.passes|
      ensures |f.passes[k].run.log| == 1 && Notes(f.passes[k].run) == ReplyText(f.passes[k].run.log[0])
    {
      ParagraphTurn(reader, ch, k);
    }
  }

  /** The replies to the first `k` calls of a log depend only on those calls. */
  lemma RepliesOfPrefix(log: seq<Exchange>, prefix: seq<Exchange>, k: nat)
    requires k <= |prefix| <= |log| && log[..|prefix|] == prefix
    ensures Replies(log)[..k] == Replies(prefix)[..k]
  {
    forall j | 0 <= j < k
      ensures Replies(log)[..k][j] == Replies(prefix)[..k][j]
    {
      assert log[j] == prefix[j];
    }
  }

  /** Paragraph `k`'s call, as it appears at position `k` of its chapter's log. */
  lemma ParagraphPrompt(reader: Summarizer, ch: Chapter, log: seq<Exchange>, k: nat)
    requires k < |ParagraphPasses(reader, ch).passes| <= |log|
    requires log[..|ParagraphPasses(reader, ch).passes|] == Logs(ParagraphPasses(reader, ch).passes)
    ensures log[k].prompt == Fill(reader.paragraphTemplate, RollingContext(Replies(log)[..k]), ch.paragraphs[k].content)
  {
    var f := ParagraphPasses(reader, ch);
    ParagraphTurn(reader, ch, k);
    ParagraphSingleCalls(reader, ch);
    SummariesAreReplies(f.passes, k);
    LogsOfSingleCalls(f.passes);
    assert log[k] == Logs(f.passes)[k];
    RepliesOfPrefix(log, Logs(f.passes), k);
  }

  /**
   Everything one `summarize_chapter` call sends to the generator, read off
   its log: call `k` for `k` below the paragraph count is paragraph `k`'s,
   and its context is the rolling context of the replies to the calls
   before it (so it starts empty in every chapter); the call after them is
   the chapter's, holding `previous` and then the rolling context of all
   paragraph replies; the chapter summary is the reply to that last call.
   */
  predicate ChapterTranscript(reader: Summarizer, previous: string, ch: Chapter, r: Run) {
    && |r.log| <= |ch.paragraphs| + 1
    && (forall k :: 0 <= k < |r.log| && k < |ch.paragraphs| ==>
          r.log[k].prompt ==
            Fill(reader.paragraphTemplate, RollingContext(Replies(r.log)[..k]), ch.paragraphs[k].content))
    && (|r.log| == |ch.paragraphs| + 1 ==>
          r.log[|ch.paragraphs|].prompt ==
            Fill(reader.chapterTemplate, previous, RollingContext(Replies(r.log)[..|ch.paragraphs|])))
    && (r.result.Success? ==>
          && |r.log| == |ch.paragraphs| + 1
          && r.result.value == Replies(r.log)[|ch.paragraphs|])
  }

  /** A successful paragraph loop returns the rolling context of its turns' summaries. */
  lemma ParagraphResult(reader: Summarizer, ch: Chapter)
    ensures ParagraphPasses(reader, ch).result.Success? ==>
              ParagraphPasses(reader, ch).result.value == RollingContext(Summaries(ParagraphPasses(reader, ch).passes))
  {
    ParagraphLoop(reader, ch);
    assert "" + RollingContext(Summaries(ParagraphPasses(reader, ch).passes))
        == RollingContext(Summaries(ParagraphPasses(reader, ch).passes));
  }

  /** The chapter call, when the paragraph loop succeeded. */
  lemma ChapterCallAfterParagraphs(reader: Summarizer, previous: string, ch: Chapter)
    requires ParagraphPasses(reader, ch).result.Success?
    ensures |SummarizeChapter(reader, previous, ch).log| == |ch.paragraphs| + 1
    ensures SummarizeChapter(reader, previous, ch).log[|ch.paragraphs|].prompt ==
              Fill(reader.chapterTemplate, previous, RollingContext(Replies(SummarizeChapter(reader, previous, ch).log)[..|ch.paragraphs|]))
    ensures SummarizeChapter(reader, previous, ch).result.Success? ==>
              SummarizeChapter(reader, previous, ch).result.value == Replies(SummarizeChapter(reader, previous, ch).log)[|ch.paragraphs|]
  {
    var f := ParagraphPasses(reader, ch);
    var r := SummarizeChapter(reader, previous, ch);
    var n := |f.passes|;
    ParagraphSingleCalls(reader, ch);
    ParagraphResult(reader, ch);
    SummariesAreReplies(f.passes, n);
    var last := Ask(reader, Fill(reader.chapterTemplate, previous, f.result.value));
    assert r.log == Logs(f.passes) + last.log;
    assert r.log[..n] == Logs(f.passes);
    assert f.passes[..n] == f.passes;
    RepliesOfPrefix(r.log, Logs(f.passes), n);
    assert r.log[n] == last.log[0];
  }

  /**
   The paragraph calls of `summarize_chapter`: at most one call per
   paragraph and then one more; call `k` below the paragraph count is
   paragraph `k`'s, and its context is the rolling context of the replies
   before it.
   */
  lemma ChapterParagraphCalls(reader: Summarizer, previous: string, ch: Chapter)
    ensures |SummarizeChapter(reader, previous, ch).log| <= |ch.paragraphs| + 1
    ensures forall k :: 0 <= k < |SummarizeChapter(reader, previous, ch).log| && k < |ch.paragraphs| ==>
              SummarizeChapter(reader, previous, ch).log[k].prompt ==
                Fill(reader.paragraphTemplate, RollingContext(Replies(SummarizeChapter(reader, previous, ch).log)[..k]), ch.paragraphs[k].content)
  {
    var f := ParagraphPasses(reader, ch);
    var r := SummarizeChapter(reader, previous, ch);
    var n := |f.passes|;
    ParagraphSingleCalls(reader, ch);
    LogsOfSingleCalls(f.passes);
    assert r.log[..n] == Logs(f.passes);
    forall k | 0 <= k < |r.log| && k < |ch.paragraphs|
      ensures r.log[k].prompt == Fill(reader.paragraphTemplate, RollingContext(Replies(r.log)[..k]), ch.paragraphs[k].content)
    {
      ParagraphPrompt(reader, ch, r.log, k);
    }
    if f.result.Success? {
      ChapterCallAfterParagraphs(reader, previous, ch);
    }
  }

  /**
   The chapter call of `summarize_chapter`: when the log has one entry more
   than there are paragraphs, the last is the chapter's, holding `previous`
   and then the rolling context of all paragraph replies; a successful
   chapter made that call and its summary is the reply.
   */
  lemma ChapterCall(reader: Summarizer, previous: string, ch: Chapter)
    ensures |SummarizeChapter(reader, previous, ch).log| == |ch.paragraphs| + 1 ==>
              SummarizeChapter(reader, previous, ch).log[|ch.paragraphs|].prompt ==
                Fill(reader.chapterTemplate, previous, RollingContext(Replies(SummarizeChapter(reader, previous, ch).log)[..|ch.paragraphs|]))
    ensures SummarizeChapter(reader, previous, ch).result.Success? ==>
              && |SummarizeChapter(reader, previous, ch).log| == |ch.paragraphs| + 1
              && SummarizeChapter(reader, previous, ch).result.value == Replies(SummarizeChapter(reader, previous, ch).log)[|ch.paragraphs|]
  {
    var f := ParagraphPasses(reader, ch);
    if f.result.Success? {
      ChapterCallAfterParagraphs(reader, previous, ch);
    } else {
      ParagraphSingleCalls(reader, ch);
      LogsOfSingleCalls(f.passes);
    }
  }

  lemma ChapterCalls(reader: Summarizer, previous: string, ch: Chapter)
    ensures ChapterTranscript(reader, previous, ch, SummarizeChapter(reader, previous, ch))
  {
    ChapterParagraphCalls(reader, previous, ch);
    ChapterCall(reader, previous, ch);
  }

  /** `summarize_chapter`'s log is faithful and stops at the first failed call. */
  lemma ChapterFaithful(reader: Summarizer, previous: string, ch: Chapter)
    ensures Faithful(reader.generate, SummarizeChapter(reader, previous, ch))
  {
    var f := ParagraphPasses(reader, ch);
    ParagraphLoop(reader, ch);
    forall k | 0 <= k < |f.passes|
      ensures Faithful(reader.generate, f.passes[k].run)
    {
      ParagraphTurn(reader, ch, k);
    }
    LogsFaithful(reader.generate, f.passes, f.result);
    if f.result.Success? {
      var last := Ask(reader, Fill(reader.chapterTemplate, previous, f.result.value));
      SequenceFaithful(reader.generate, Run(f.result, Logs(f.passes)), last);
    }
  }

  // ---------------------------------------------------------------------
  // summarize_book
  // ---------------------------------------------------------------------

  /**
   Chapter `k` of a book is summarised, as a whole `summarize_chapter` call,
   with the rolling context of the summaries of chapters `0..k-1` of the
   same book, and the book's log is those calls' logs in order.
   */
  lemma ChapterContexts(reader: Summarizer, b: Book)
    ensures forall k :: 0 <= k < |ChapterPasses(reader, b).passes| ==>
              ChapterPasses(reader, b).passes[k].run ==
                SummarizeChapter(reader, RollingContext(Summaries(ChapterPasses(reader, b).passes[..k])), b.chapters[k])
    ensures SummarizeBook(reader, b).log == Logs(ChapterPasses(reader, b).passes)
  {
    var f := ChapterPasses(reader, b);
    RollingClosedForm(ChapterStep(reader), b.chapters, "");
    forall k | 0 <= k < |f.passes|
      ensures f.passes[k].run == SummarizeChapter(reader, RollingContext(Summaries(f.passes[..k])), b.chapters[k])
    {
      var context := RollingContext(Summaries(f.passes[..k]));
      assert "" + context == context;
      assert f.passes[k].context == context;
      assert f.passes[k].run == ChapterStep(reader)(context, b.chapters[k]);
    }
  }

  /**
   `summarize_book` returns the rolling context of all its chapter
   summaries, every chapter having been summarised; a book with no chapters
   yields the empty text and makes no call.
   */
  lemma BookResult(reader: Summarizer, b: Book)
    ensures SummarizeBook(reader, b).result.Success? ==>
              && |ChapterPasses(reader, b).passes| == |b.chapters|
              && SummarizeBook(reader, b).result.value == RollingContext(Summaries(ChapterPasses(reader, b).passes))
    ensures |b.chapters| == 0 ==> SummarizeBook(reader, b) == Run(Success(""), [])
  {
    RollingClosedForm(ChapterStep(reader), b.chapters, "");
  }

  lemma {:induction false} LogsOfChapters(passes: seq<Pass>, chapters: seq<Chapter>)
    requires |passes| == |chapters|
    requires forall k :: 0 <= k < |passes| ==> |passes[k].run.log| == |chapters[k].paragraphs| + 1
    ensures |Logs(passes)| == ParagraphsIn(chapters) + |chapters|
  {
    if |passes| > 0 {
      LogsOfChapters(passes[1..], chapters[1..]);
    }
  }

  /**
   `summarize_book` stops at the first failed call and logs the oracle
   truthfully; when it succeeds it made exactly one call per paragraph and
   one per chapter.
   */
  lemma BookCalls(reader: Summarizer, b: Book)
    ensures Faithful(reader.generate, SummarizeBook(reader, b))
    ensures SummarizeBook(reader, b).result.Success? ==>
              |SummarizeBook(reader, b).log| == ParagraphsIn(b.chapters) + |b.chapters|
  {
    var f := ChapterPasses(reader, b);
    RollingClosedForm(ChapterStep(reader), b.chapters, "");
    forall k | 0 <= k < |f.passes|
      ensures Faithful(reader.generate, f.passes[k].run)
      ensures f.passes[k].run.result.Success? ==> |f.passes[k].run.log| == |b.chapters[k].paragraphs| + 1
    {
      ChapterCalls(reader, f.passes[k].context, b.chapters[k]);
      ChapterFaithful(reader, f.passes[k].context, b.chapters[k]);
    }
    LogsFaithful(reader.generate, f.passes, f.result);
    if f.result.Success? {
      LogsOfChapters(f.passes, b.chapters);
    }
  }

  // ---------------------------------------------------------------------
  // Reader::summarize
  // ---------------------------------------------------------------------

  /** The results of summarising each book on its own, in order. */
  function BookSummaries(reader: Summarizer, books: seq<Book>): seq<string> {
    if |books| == 0 then [] else [Notes(SummarizeBook(reader, books[0]))] + BookSummaries(reader, books[1..])
  }

  /** The calls of summarising each book on its own, in order. */
  function BookLogs(reader: Summarizer, books: seq<Book>): seq<Exchange> {
    if |books| == 0 then [] else SummarizeBook(reader, books[0]).log + BookLogs(reader, books[1..])
  }

  /**
   What the book loop promises: it succeeds exactly when every book does;
   it then returns the starting text followed by every book's own result in
   order, and its calls are every book's calls in order, one per paragraph
   and per chapter.
   */
  predicate BooksOutcome(reader: Summarizer, books: seq<Book>, acc: string, r: Run) {
    && (r.result.Success? <==> forall i :: 0 <= i < |books| ==> SummarizeBook(reader, books[i]).result.Success?)
    && (r.result.Success? ==>
          && r.result.value == acc + Concat(BookSummaries(reader, books))
          && r.log == BookLogs(reader, books)
          && |r.log| == ParagraphsInBooks(books) + ChaptersIn(books))
  }

  lemma {:induction false} BooksCalls(reader: Summarizer, books: seq<Book>, acc: string)
    ensures BooksOutcome(reader, books, acc, SummarizeBooks(reader, books, acc))
    decreases |books|
  {
    if |books| > 0 {
      var first := SummarizeBook(reader, books[0]);
      BookCalls(reader, books[0]);
      if first.result.Success? {
        var rest := books[1..];
        BooksCalls(reader, rest, acc + first.result.value);
        forall i | 0 < i < |books|
          ensures books[i] == rest[i - 1]
        {
        }
      }
    }
  }

  /** The book loop's log is faithful and stops at the first failed call. */
  lemma {:induction false} BooksFaithful(reader: Summarizer, books: seq<Book>, acc: string)
    ensures Faithful(reader.generate, SummarizeBooks(reader, books, acc))
    decreases |books|
  {
    if |books| > 0 {
      var first := SummarizeBook(reader, books[0]);
      BookCalls(reader, books[0]);
      if first.result.Success? {
        BooksFaithful(reader, books[1..], acc + first.result.value);
        SequenceFaithful(reader.generate, first, SummarizeBooks(reader, books[1..], acc + first.result.value));
      }
    }
  }

  /**
   `Reader::summarize` on a document: it succeeds exactly when every book
   does, returning the concatenation of the books' own results in order
   (no context crosses a book boundary) after one call per paragraph and
   per chapter; its log is faithful and stops at the first failed call.
   */
  lemma DocumentCalls(reader: Summarizer, d: Document)
    ensures Faithful(reader.generate, Summarize(reader, d))
    ensures Summarize(reader, d).result.Success? <==>
              forall i :: 0 <= i < |d.books| ==> SummarizeBook(reader, d.books[i]).result.Success?
    ensures Summarize(reader, d).result.Success? ==>
              && Summarize(reader, d).result.value == Concat(BookSummaries(reader, d.books))
              && Summarize(reader, d).log == BookLogs(reader, d.books)
              && |Summarize(reader, d).log| == TotalParagraphs(d) + TotalChapters(d)
  {
    BooksCalls(reader, d.books, "");
    BooksFaithful(reader, d.books, "");
  }

  // ---------------------------------------------------------------------
  // From the lines of the file to the generator calls
  // ---------------------------------------------------------------------

  /**
   `Reader::summarize` end to end, from the raw lines: a document the parser
   refuses reports the parse error and makes no call; otherwise the log is
   faithful and stops at the first failed call, and a successful run makes
   one call per paragraph token and one per chapter token; lines read into
   a marker's title are not tokens and cause no call.
   */
  lemma SummarizeLinesCalls(reader: Summarizer, lines: seq<string>)
    ensures Parse(lines).Failure? ==>
              && SummarizeLines(reader, lines).log == []
              && SummarizeLines(reader, lines).result == Failure(Malformed(Parse(lines).error))
    ensures Parse(lines).Success? ==> Faithful(reader.generate, SummarizeLines(reader, lines))
    ensures SummarizeLines(reader, lines).result.Success? ==>
              |SummarizeLines(reader, lines).log| ==
                Count(Items(Tokens(lines)), ParagraphKind) + Count(Items(Tokens(lines)), ChapterKind)
  {
    if Parse(lines).Success? {
      ParseCounts(lines);
      DocumentCalls(reader, Parse(lines).value);
    }
  }
}
