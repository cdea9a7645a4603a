/**
 A reference description of what the line loop of `WealthOfNations::new`
 produces, independent of the tree updates it performs:

 - `Tokens` lists the lines the loop acts on, in file order, as outline
   items (a book title, a chapter title or a paragraph);
 - `DocumentOutline` flattens a tree back into the same kind of items,
   in reading order;
 - `WellFormed` says when every chapter has an open book and every
   paragraph an open chapter.

 The main results: parsing succeeds exactly on well-formed token streams,
 the parsed tree's outline is the token stream, and a failure names the
 first token that had no parent.
 */
module Outline {
  import opened Wrappers
  import opened Text
  import opened Parser

  datatype Item = BookItem(title: string) | ChapterItem(title: string) | ParagraphItem(content: string)

  /** An item together with the index of the line it came from. */
  datatype Token = Token(item: Item, line: nat)

  // ---------------------------------------------------------------------
  // Outline of a tree, in reading order
  // ---------------------------------------------------------------------

  function ParagraphsOutline(ps: seq<Paragraph>): seq<Item> {
    if |ps| == 0 then [] else ParagraphsOutline(ps[..|ps| - 1]) + [ParagraphItem(ps[|ps| - 1].content)]
  }

  function ChapterOutline(c: Chapter): seq<Item> {
    [ChapterItem(c.title)] + ParagraphsOutline(c.paragraphs)
  }

  function ChaptersOutline(cs: seq<Chapter>): seq<Item> {
    if |cs| == 0 then [] else ChaptersOutline(cs[..|cs| - 1]) + ChapterOutline(cs[|cs| - 1])
  }

  function BookOutline(b: Book): seq<Item> {
    [BookItem(b.title)] + ChaptersOutline(b.chapters)
  }

  function BooksOutline(bs: seq<Book>): seq<Item> {
    if |bs| == 0 then [] else BooksOutline(bs[..|bs| - 1]) + BookOutline(bs[|bs| - 1])
  }

  function DocumentOutline(d: Document): seq<Item> {
    BooksOutline(d.books)
  }

  // ---------------------------------------------------------------------
  // The tokens of a line sequence
  // ---------------------------------------------------------------------

  /** The item a non-skipped line contributes. */
  function LineItem(lines: seq<string>, i: nat): Item
    requires i < |lines| && Classify(lines[i]) != Skipped
  {
    match Classify(lines[i])
    case BookMarker => BookItem(MarkerTitle(lines, i))
    case ChapterMarker => ChapterItem(MarkerTitle(lines, i))
    case ParagraphLine => ParagraphItem(Trim(lines[i]))
  }

  predicate IsMarkerItem(item: Item) {
    item.BookItem? || item.ChapterItem?
  }

  /** The tokens the loop meets from line `i` on: one per line it acts on, skipping title lines. */
  function TokensFrom(lines: seq<string>, i: nat): seq<Token>
    decreases |lines| - i
  {
    if i >= |lines| then []
    else if Classify(lines[i]) == Skipped then TokensFrom(lines, i + 1)
    else [Token(LineItem(lines, i), i)] + TokensFrom(lines, i + Consumed(lines, i))
  }

  /** Every token comes from a line at or after `i` and carries that line's item. */
  predicate FromLines(lines: seq<string>, i: nat, ts: seq<Token>) {
    forall k :: 0 <= k < |ts| ==>
      && i <= ts[k].line < |lines|
      && Classify(lines[ts[k].line]) != Skipped
      && ts[k].item == LineItem(lines, ts[k].line)
  }

  /** Token lines increase, and after a marker the next token is at least two lines further on. */
  predicate Spaced(ts: seq<Token>) {
    forall j, k :: 0 <= j < k < |ts| ==> ts[j].line + (if IsMarkerItem(ts[j].item) then 2 else 1) <= ts[k].line
  }

  lemma {:induction false} TokensFromLines(lines: seq<string>, i: nat)
    ensures FromLines(lines, i, TokensFrom(lines, i))
    decreases |lines| - i
  {
    if i < |lines| {
      if Classify(lines[i]) == Skipped {
        TokensFromLines(lines, i + 1);
      } else {
        var ts := TokensFrom(lines, i);
        var rest := TokensFrom(lines, i + Consumed(lines, i));
        assert ts == [Token(LineItem(lines, i), i)] + rest;
        TokensFromLines(lines, i + Consumed(lines, i));
        forall k | 0 < k < |ts|
          ensures ts[k] == rest[k - 1]
        {
        }
      }
    }
  }

  /** A token's item is a marker exactly when its line was a marker line, which reads two lines. */
  lemma MarkerItemConsumesTwo(lines: seq<string>, i: nat)
    requires i < |lines| && Classify(lines[i]) != Skipped
    ensures IsMarkerItem(LineItem(lines, i)) <==> Consumed(lines, i) == 2
  {
  }

  lemma {:induction false} TokensAbove(lines: seq<string>, i: nat)
    ensures forall k :: 0 <= k < |TokensFrom(lines, i)| ==> i <= TokensFrom(lines, i)[k].line
    decreases |lines| - i
  {
    if i < |lines| {
      if Classify(lines[i]) == Skipped {
        TokensAbove(lines, i + 1);
      } else {
        var ts := TokensFrom(lines, i);
        var rest := TokensFrom(lines, i + Consumed(lines, i));
        TokensAbove(lines, i + Consumed(lines, i));
        forall k | 0 < k < |ts|
          ensures i <= ts[k].line
        {
          assert ts[k] == rest[k - 1];
        }
      }
    }
  }

  lemma {:induction false} TokensSpaced(lines: seq<string>, i: nat)
    ensures Spaced(TokensFrom(lines, i))
    decreases |lines| - i
  {
    if i < |lines| {
      if Classify(lines[i]) == Skipped {
        TokensSpaced(lines, i + 1);
      } else {
        var ts := TokensFrom(lines, i);
        var next := i + Consumed(lines, i);
        var rest := TokensFrom(lines, next);
        var t0 := Token(LineItem(lines, i), i);
        assert ts == [t0] + rest;
        TokensSpaced(lines, next);
        TokensAbove(lines, next);
        MarkerItemConsumesTwo(lines, i);
        forall j, k | 0 <= j < k < |ts|
          ensures ts[j].line + (if IsMarkerItem(ts[j].item) then 2 else 1) <= ts[k].line
        {
          assert ts[k] == rest[k - 1];
          if j > 0 {
            assert ts[j] == rest[j - 1];
          } else {
            assert ts[j] == t0;
          }
        }
      }
    }
  }

  lemma TokensInOrder(lines: seq<string>, i: nat)
    ensures FromLines(lines, i, TokensFrom(lines, i))
    ensures Spaced(TokensFrom(lines, i))
  {
    TokensFromLines(lines, i);
    TokensSpaced(lines, i);
  }

  /**
   Classification precedence, read off the tokens: a token is a book
   exactly when its line has the `BOOK` prefix, and a chapter exactly when
   its line has `CHAPTER` but not `BOOK`, whatever the length; only the
   tokens of other lines are paragraphs. A line read into a marker's title
   (even a marker line) yields no token at all.
   */
  lemma TokenKinds(lines: seq<string>, i: nat)
    ensures forall k :: 0 <= k < |TokensFrom(lines, i)| ==>
              var j := TokensFrom(lines, i)[k].line;
              && j < |lines|
              && (TokensFrom(lines, i)[k].item.BookItem? <==> StartsWith(lines[j], "BOOK"))
              && (TokensFrom(lines, i)[k].item.ChapterItem? <==>
                    !StartsWith(lines[j], "BOOK") && StartsWith(lines[j], "CHAPTER"))
  {
    TokensFromLines(lines, i);
  }

  function Tokens(lines: seq<string>): seq<Token> {
    TokensFrom(lines, 0)
  }

  function Items(ts: seq<Token>): (items: seq<Item>)
    ensures |items| == |ts|
    ensures forall k :: 0 <= k < |ts| ==> items[k] == ts[k].item
  {
    seq(|ts|, k requires 0 <= k < |ts| => ts[k].item)
  }

  /** The lines that became tokens. */
  function TokenLines(ts: seq<Token>): set<nat> {
    if |ts| == 0 then {} else {ts[0].line} + TokenLines(ts[1..])
  }

  /** The lines that became book or chapter markers. */
  function MarkerLines(ts: seq<Token>): set<nat> {
    if |ts| == 0 then {}
    else (if IsMarkerItem(ts[0].item) then {ts[0].line} else {}) + MarkerLines(ts[1..])
  }

  lemma {:induction false} InTokenLines(ts: seq<Token>, x: nat)
    ensures x in TokenLines(ts) <==> exists k :: 0 <= k < |ts| && ts[k].line == x
    ensures x in MarkerLines(ts) <==> exists k :: 0 <= k < |ts| && ts[k].line == x && IsMarkerItem(ts[k].item)
  {
    if |ts| > 0 {
      InTokenLines(ts[1..], x);
      if exists k :: 0 <= k < |ts| && ts[k].line == x && k > 0 {
        var k :| 0 <= k < |ts| && ts[k].line == x && k > 0;
        assert ts[1..][k - 1] == ts[k];
      }
      if exists k :: 0 <= k < |ts| && ts[k].line == x && IsMarkerItem(ts[k].item) && k > 0 {
        var k :| 0 <= k < |ts| && ts[k].line == x && IsMarkerItem(ts[k].item) && k > 0;
        assert ts[1..][k - 1] == ts[k];
      }
    }
  }

  // ---------------------------------------------------------------------
  // Well-formedness of an outline
  // ---------------------------------------------------------------------

  /** How deep the tree is open after some items: no book, a book without chapters, or a chapter. */
  datatype Level = Closed | InBook | InChapter

  function Next(level: Level, item: Item): Level {
    match item
    case BookItem(_) => InBook
    case ChapterItem(_) => InChapter
    case ParagraphItem(_) => level
  }

  function Open(items: seq<Item>): Level {
    if |items| == 0 then Closed else Next(Open(items[..|items| - 1]), items[|items| - 1])
  }

  /** A chapter needs an open book; a paragraph needs an open chapter. */
  predicate Allowed(level: Level, item: Item) {
    match item
    case BookItem(_) => true
    case ChapterItem(_) => level != Closed
    case ParagraphItem(_) => level == InChapter
  }

  predicate WellFormed(items: seq<Item>) {
    forall k :: 0 <= k < |items| ==> Allowed(Open(items[..k]), items[k])
  }

  /** The error the source's `unwrap()` would raise for an item not allowed at `level`. */
  function Refusal(level: Level, line: nat): ParseError {
    ParseError(line, if level == Closed then NoBook else NoChapter)
  }

  /** The level a tree is open at. */
  function LevelOf(d: Document): Level {
    if |d.books| == 0 then Closed
    else if |d.books[|d.books| - 1].chapters| == 0 then InBook
    else InChapter
  }

  // ---------------------------------------------------------------------
  // Building a tree from tokens
  // ---------------------------------------------------------------------

  /** The `add_*` call a token stands for. */
  function Apply(d: Document, t: Token): Result<Document, ParseError> {
    match t.item
    case BookItem(title) => Success(AddBook(d, Book(title, [])))
    case ChapterItem(title) => Locate(AddChapter(d, Chapter(title, [])), t.line)
    case ParagraphItem(content) => Locate(AddParagraph(d, Paragraph(content)), t.line)
  }

  /** The tree of a token stream, defined from its last token backwards. */
  function Build(ts: seq<Token>): Result<Document, ParseError> {
    if |ts| == 0 then Success(Document([]))
    else
      var d :- Build(ts[..|ts| - 1]);
      Apply(d, ts[|ts| - 1])
  }

  /** Applying tokens one after another to a given tree, front to back, as the loop does. */
  function BuildOnto(d: Document, ts: seq<Token>): Result<Document, ParseError>
    decreases |ts|
  {
    if |ts| == 0 then Success(d)
    else
      var next :- Apply(d, ts[0]);
      BuildOnto(next, ts[1..])
  }

  // ---------------------------------------------------------------------
  // The loop is the token fold
  // ---------------------------------------------------------------------

  /** One turn of the loop applies the token of its line, or does nothing on a skipped line. */
  lemma StepIsApply(d: Document, lines: seq<string>, i: nat)
    requires i < |lines|
    ensures Step(d, lines, i) ==
              if Classify(lines[i]) == Skipped then Success(d) else Apply(d, Token(LineItem(lines, i), i))
  {
  }

  lemma {:induction false} ParseFromIsBuildOnto(lines: seq<string>, i: nat, d: Document)
    ensures ParseFrom(lines, i, d) == BuildOnto(d, TokensFrom(lines, i))
    decreases |lines| - i
  {
    if i < |lines| {
      StepIsApply(d, lines, i);
      ParseFromIsBuildOnto(lines, i + Consumed(lines, i), d);
      if Classify(lines[i]) == Skipped {
        ParseFromIsBuildOnto(lines, i + 1, d);
      } else {
        var t := Token(LineItem(lines, i), i);
        var rest := TokensFrom(lines, i + Consumed(lines, i));
        assert TokensFrom(lines, i) == [t] + rest;
        assert ([t] + rest)[1..] == rest;
        match Apply(d, t)
        case Failure(e) =>
        case Success(next) =>
          ParseFromIsBuildOnto(lines, i + Consumed(lines, i), next);
      }
    }
  }

  /** Once a prefix fails, the whole stream fails the same way. */
  lemma {:induction false} BuildFailureSticks(ts: seq<Token>, k: nat)
    requires k <= |ts| && Build(ts[..k]).Failure?
    ensures Build(ts) == Build(ts[..k])
    decreases |ts|
  {
    if k < |ts| {
      var p := ts[..|ts| - 1];
      assert p[..k] == ts[..k];
      BuildFailureSticks(p, k);
    } else {
      assert ts[..k] == ts;
    }
  }

  /** Folding the rest of the stream onto the tree of a prefix gives the tree of the whole stream. */
  lemma {:induction false} BuildOntoFromPrefix(ts: seq<Token>, k: nat, d: Document)
    requires k <= |ts| && Build(ts[..k]) == Success(d)
    ensures BuildOnto(d, ts[k..]) == Build(ts)
    decreases |ts| - k
  {
    if k == |ts| {
      assert ts[..k] == ts;
    } else {
      assert ts[..k + 1][..k] == ts[..k];
      assert Build(ts[..k + 1]) == Apply(d, ts[k]);
      assert ts[k..][1..] == ts[k + 1..];
      match Apply(d, ts[k])
      case Failure(e) =>
        BuildFailureSticks(ts, k + 1);
      case Success(next) =>
        BuildOntoFromPrefix(ts, k + 1, next);
    }
  }

  /** The line loop is the token fold: `Parse` builds exactly the tree of the tokens. */
  lemma ParseIsBuild(lines: seq<string>)
    ensures Parse(lines) == Build(Tokens(lines))
  {
    ParseFromIsBuildOnto(lines, 0, Document([]));
    var ts := Tokens(lines);
    assert ts[..0] == [];
    assert ts[0..] == ts;
    BuildOntoFromPrefix(ts, 0, Document([]));
  }

  // ---------------------------------------------------------------------
  // Outline bookkeeping
  // ---------------------------------------------------------------------

  lemma OpenSnoc(items: seq<Item>, x: Item)
    ensures Open(items + [x]) == Next(Open(items), x)
  {
    assert (items + [x])[..|items|] == items;
  }

  lemma WellFormedSnoc(items: seq<Item>, x: Item)
    ensures WellFormed(items + [x]) <==> WellFormed(items) && Allowed(Open(items), x)
  {
    var s := items + [x];
    forall k | 0 <= k < |items|
      ensures s[..k] == items[..k] && s[k] == items[k]
    {
    }
    assert s[..|items|] == items;
  }

  lemma ItemsSnoc(ts: seq<Token>)
    requires |ts| > 0
    ensures Items(ts) == Items(ts[..|ts| - 1]) + [ts[|ts| - 1].item]
  {
  }

  lemma BookOutlineGainsChapter(b: Book, b': Book, c: Chapter)
    requires ChapterAppendedToBook(b, b', c)
    ensures BookOutline(b') == BookOutline(b) + ChapterOutline(c)
  {
    assert b'.chapters == b.chapters + [c];
    assert b'.chapters[..|b'.chapters| - 1] == b.chapters;
  }

  lemma BookOutlineGainsParagraph(b: Book, b': Book, p: Paragraph)
    requires ParagraphAppendedToBook(b, b', p)
    ensures BookOutline(b') == BookOutline(b) + [ParagraphItem(p.content)]
  {
    var n := |b.chapters|;
    var c, c' := b.chapters[n - 1], b'.chapters[n - 1];
    assert c'.paragraphs == c.paragraphs + [p];
    assert c'.paragraphs[..|c'.paragraphs| - 1] == c.paragraphs;
    assert ChapterOutline(c') == ChapterOutline(c) + [ParagraphItem(p.content)];
  }

  lemma BooksOutlineLastGrows(bs: seq<Book>, bs': seq<Book>, extra: seq<Item>)
    requires |bs| == |bs'| > 0 && bs'[..|bs| - 1] == bs[..|bs| - 1]
    requires BookOutline(bs'[|bs| - 1]) == BookOutline(bs[|bs| - 1]) + extra
    ensures BooksOutline(bs') == BooksOutline(bs) + extra
  {
  }

  /** Each `add_*` call extends the outline by its one item, and fails exactly when its item is not allowed. */
  lemma ApplyExtendsOutline(d: Document, t: Token)
    ensures Apply(d, t).Success? <==> Allowed(LevelOf(d), t.item)
    ensures Apply(d, t).Failure? ==> Apply(d, t).error == Refusal(LevelOf(d), t.line)
    ensures Apply(d, t).Success? ==>
              && DocumentOutline(Apply(d, t).value) == DocumentOutline(d) + [t.item]
              && LevelOf(Apply(d, t).value) == Next(LevelOf(d), t.item)
  {
    match t.item
    case BookItem(title) =>
      var d' := AddBook(d, Book(title, []));
      assert d'.books[..|d'.books| - 1] == d.books;
    case ChapterItem(title) =>
      var r := AddChapter(d, Chapter(title, []));
      if r.Success? {
        var n := |d.books|;
        BookOutlineGainsChapter(d.books[n - 1], r.value.books[n - 1], Chapter(title, []));
        BooksOutlineLastGrows(d.books, r.value.books, [t.item]);
      }
    case ParagraphItem(content) =>
      var r := AddParagraph(d, Paragraph(content));
      if r.Success? {
        var n := |d.books|;
        BookOutlineGainsParagraph(d.books[n - 1], r.value.books[n - 1], Paragraph(content));
        BooksOutlineLastGrows(d.books, r.value.books, [t.item]);
      }
  }

  // ---------------------------------------------------------------------
  // Correctness of the token fold
  // ---------------------------------------------------------------------

  /** Building succeeds exactly on well-formed streams, and then the tree's outline is the stream. */
  lemma {:induction false} BuildMatchesOutline(ts: seq<Token>)
    ensures Build(ts).Success? <==> WellFormed(Items(ts))
    ensures Build(ts).Success? ==>
              && DocumentOutline(Build(ts).value) == Items(ts)
              && LevelOf(Build(ts).value) == Open(Items(ts))
  {
    if |ts| > 0 {
      var p, t := ts[..|ts| - 1], ts[|ts| - 1];
      BuildMatchesOutline(p);
      ItemsSnoc(ts);
      WellFormedSnoc(Items(p), t.item);
      OpenSnoc(Items(p), t.item);
      match Build(p)
      case Failure(e) =>
      case Success(d) =>
        ApplyExtendsOutline(d, t);
    } else {
      assert Items(ts) == [];
    }
  }

  /** Token `k` is the first one without a parent, and `e` is the error for it. */
  predicate FirstOrphan(ts: seq<Token>, k: nat, e: ParseError)
    requires k < |ts|
  {
    var level := Open(Items(ts[..k]));
    && WellFormed(Items(ts[..k]))
    && !Allowed(level, ts[k].item)
    && e == Refusal(level, ts[k].line)
  }

  /** A failed build reports the first token that had no parent. */
  lemma {:induction false} BuildFailsAtFirstOrphan(ts: seq<Token>)
    requires Build(ts).Failure?
    ensures exists k :: 0 <= k < |ts| && FirstOrphan(ts, k, Build(ts).error)
  {
    var p, t := ts[..|ts| - 1], ts[|ts| - 1];
    match Build(p)
    case Failure(e) =>
      BuildFailsAtFirstOrphan(p);
      var k :| 0 <= k < |p| && FirstOrphan(p, k, e);
      assert ts[..k] == p[..k];
      assert FirstOrphan(ts, k, Build(ts).error);
    case Success(d) =>
      BuildMatchesOutline(p);
      ApplyExtendsOutline(d, t);
      assert ts[..|p|] == p;
      assert FirstOrphan(ts, |p|, Build(ts).error);
  }

  /**
   What `WealthOfNations::new` returns, in terms of the tokens of its input:
   a tree exactly when every chapter has a book and every paragraph a
   chapter before it; that tree lists the tokens' titles and paragraphs in
   file order; otherwise the error of the first orphan.
   */
  lemma ParseMatchesOutline(lines: seq<string>)
    ensures Parse(lines).Success? <==> WellFormed(Items(Tokens(lines)))
    ensures Parse(lines).Success? ==> DocumentOutline(Parse(lines).value) == Items(Tokens(lines))
    ensures Parse(lines).Failure? ==>
              exists k :: 0 <= k < |Tokens(lines)| && FirstOrphan(Tokens(lines), k, Parse(lines).error)
  {
    ParseIsBuild(lines);
    BuildMatchesOutline(Tokens(lines));
    if Parse(lines).Failure? {
      BuildFailsAtFirstOrphan(Tokens(lines));
    }
  }

  // ---------------------------------------------------------------------
  // Which lines become tokens
  // ---------------------------------------------------------------------

  /** Line `j` became a token, was skipped, or is the title line of the marker token before it. */
  predicate Covered(lines: seq<string>, ts: seq<Token>, j: nat)
    requires j < |lines|
  {
    || j in TokenLines(ts)
    || Classify(lines[j]) == Skipped
    || (j > 0 && j - 1 in MarkerLines(ts))
  }

  /** Every line the loop reaches is either a token, skipped, or the title line of the marker just before it. */
  lemma {:induction false} TokensCoverLines(lines: seq<string>, i: nat)
    ensures forall j :: i <= j < |lines| ==> Covered(lines, TokensFrom(lines, i), j)
    decreases |lines| - i
  {
    if i < |lines| {
      var ts := TokensFrom(lines, i);
      if Classify(lines[i]) == Skipped {
        TokensCoverLines(lines, i + 1);
      } else {
        var t := Token(LineItem(lines, i), i);
        var next := i + Consumed(lines, i);
        var rest := TokensFrom(lines, next);
        assert ts == [t] + rest;
        assert ts[1..] == rest;
        TokensCoverLines(lines, next);
        forall j | i <= j < |lines|
          ensures Covered(lines, ts, j)
        {
          if j == i {
            assert j in TokenLines(ts);
          } else if j < next {
            assert IsMarkerItem(t.item);
            assert j - 1 in MarkerLines(ts);
          } else {
            assert Covered(lines, rest, j);
          }
        }
      }
    }
  }

  lemma SpacedSkipsTitleLines(ts: seq<Token>)
    requires Spaced(ts)
    ensures forall j :: j in MarkerLines(ts) ==> j + 1 !in TokenLines(ts)
  {
    forall j | j in MarkerLines(ts)
      ensures j + 1 !in TokenLines(ts)
    {
      InTokenLines(ts, j);
      InTokenLines(ts, j + 1);
      var a :| 0 <= a < |ts| && ts[a].line == j && IsMarkerItem(ts[a].item);
      forall b | 0 <= b < |ts|
        ensures ts[b].line != j + 1
      {
        if a < b {
          assert ts[a].line + 2 <= ts[b].line;
        } else if b < a {
          assert ts[b].line + 1 <= ts[a].line;
        }
      }
    }
  }

  /** The title line after a marker is never a token of its own. */
  lemma TitleLinesAreConsumed(lines: seq<string>, i: nat)
    ensures forall j :: j in MarkerLines(TokensFrom(lines, i)) ==> j + 1 !in TokenLines(TokensFrom(lines, i))
  {
    TokensInOrder(lines, i);
    SpacedSkipsTitleLines(TokensFrom(lines, i));
  }

  // ---------------------------------------------------------------------
  // Counting
  // ---------------------------------------------------------------------

  datatype Kind = BookKind | ChapterKind | ParagraphKind

  function KindOf(item: Item): Kind {
    match item
    case BookItem(_) => BookKind
    case ChapterItem(_) => ChapterKind
    case ParagraphItem(_) => ParagraphKind
  }

  function Count(items: seq<Item>, kind: Kind): nat {
    if |items| == 0 then 0
    else Count(items[..|items| - 1], kind) + (if KindOf(items[|items| - 1]) == kind then 1 else 0)
  }

  lemma {:induction false} CountAppend(a: seq<Item>, b: seq<Item>, kind: Kind)
    ensures Count(a + b, kind) == Count(a, kind) + Count(b, kind)
    decreases |b|
  {
    if |b| == 0 {
      assert a + b == a;
    } else {
      assert (a + b)[..|a + b| - 1] == a + b[..|b| - 1];
      CountAppend(a, b[..|b| - 1], kind);
    }
  }

  lemma {:induction false} ParagraphsInSnoc(cs: seq<Chapter>)
    requires |cs| > 0
    ensures ParagraphsIn(cs) == ParagraphsIn(cs[..|cs| - 1]) + |cs[|cs| - 1].paragraphs|
  {
    if |cs| > 1 {
      assert cs[1..][..|cs[1..]| - 1] == cs[..|cs| - 1][1..];
      ParagraphsInSnoc(cs[1..]);
    }
  }

  lemma {:induction false} ChaptersInSnoc(bs: seq<Book>)
    requires |bs| > 0
    ensures ChaptersIn(bs) == ChaptersIn(bs[..|bs| - 1]) + |bs[|bs| - 1].chapters|
    ensures ParagraphsInBooks(bs) == ParagraphsInBooks(bs[..|bs| - 1]) + ParagraphsIn(bs[|bs| - 1].chapters)
  {
    if |bs| > 1 {
      assert bs[1..][..|bs[1..]| - 1] == bs[..|bs| - 1][1..];
      ChaptersInSnoc(bs[1..]);
    }
  }

  lemma CountSingle(x: Item, kind: Kind)
    ensures Count([x], kind) == if KindOf(x) == kind then 1 else 0
  {
    assert [x][..0] == [];
  }

  lemma {:induction false} ParagraphsOutlineCounts(ps: seq<Paragraph>)
    ensures Count(ParagraphsOutline(ps), BookKind) == 0
    ensures Count(ParagraphsOutline(ps), ChapterKind) == 0
    ensures Count(ParagraphsOutline(ps), ParagraphKind) == |ps|
  {
    if |ps| > 0 {
      ParagraphsOutlineCounts(ps[..|ps| - 1]);
    }
  }

  lemma ChapterOutlineCounts(c: Chapter)
    ensures Count(ChapterOutline(c), BookKind) == 0
    ensures Count(ChapterOutline(c), ChapterKind) == 1
    ensures Count(ChapterOutline(c), ParagraphKind) == |c.paragraphs|
  {
    var head, ps := [ChapterItem(c.title)], ParagraphsOutline(c.paragraphs);
    ParagraphsOutlineCounts(c.paragraphs);
    CountAppend(head, ps, BookKind);
    CountAppend(head, ps, ChapterKind);
    CountAppend(head, ps, ParagraphKind);
    CountSingle(head[0], BookKind);
    CountSingle(head[0], ChapterKind);
    CountSingle(head[0], ParagraphKind);
  }

  lemma {:induction false} ChaptersOutlineCounts(cs: seq<Chapter>)
    ensures Count(ChaptersOutline(cs), BookKind) == 0
    ensures Count(ChaptersOutline(cs), ChapterKind) == |cs|
    ensures Count(ChaptersOutline(cs), ParagraphKind) == ParagraphsIn(cs)
  {
    if |cs| > 0 {
      var p, c := ChaptersOutline(cs[..|cs| - 1]), cs[|cs| - 1];
      ChaptersOutlineCounts(cs[..|cs| - 1]);
      ChapterOutlineCounts(c);
      ParagraphsInSnoc(cs);
      CountAppend(p, ChapterOutline(c), BookKind);
      CountAppend(p, ChapterOutline(c), ChapterKind);
      CountAppend(p, ChapterOutline(c), ParagraphKind);
    }
  }

  lemma BookOutlineCounts(b: Book)
    ensures Count(BookOutline(b), BookKind) == 1
    ensures Count(BookOutline(b), ChapterKind) == |b.chapters|
    ensures Count(BookOutline(b), ParagraphKind) == ParagraphsIn(b.chapters)
  {
    var head, cs := [BookItem(b.title)], ChaptersOutline(b.chapters);
    ChaptersOutlineCounts(b.chapters);
    CountAppend(head, cs, BookKind);
    CountAppend(head, cs, ChapterKind);
    CountAppend(head, cs, ParagraphKind);
    CountSingle(head[0], BookKind);
    CountSingle(head[0], ChapterKind);
    CountSingle(head[0], ParagraphKind);
  }

  lemma {:induction false} BooksOutlineCounts(bs: seq<Book>)
    ensures Count(BooksOutline(bs), BookKind) == |bs|
    ensures Count(BooksOutline(bs), ChapterKind) == ChaptersIn(bs)
    ensures Count(BooksOutline(bs), ParagraphKind) == ParagraphsInBooks(bs)
  {
    if |bs| > 0 {
      var p, b := BooksOutline(bs[..|bs| - 1]), bs[|bs| - 1];
      BooksOutlineCounts(bs[..|bs| - 1]);
      BookOutlineCounts(b);
      ChaptersInSnoc(bs);
      CountAppend(p, BookOutline(b), BookKind);
      CountAppend(p, BookOutline(b), ChapterKind);
      CountAppend(p, BookOutline(b), ParagraphKind);
    }
  }

  /** A parsed tree has one book, chapter and paragraph per token of that kind. */
  lemma ParseCounts(lines: seq<string>)
    requires Parse(lines).Success?
    ensures var d, items := Parse(lines).value, Items(Tokens(lines));
            && |d.books| == Count(items, BookKind)
            && TotalChapters(d) == Count(items, ChapterKind)
            && TotalParagraphs(d) == Count(items, ParagraphKind)
  {
    ParseMatchesOutline(lines);
    BooksOutlineCounts(Parse(lines).value.books);
  }
}
