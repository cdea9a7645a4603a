/**
 The document tree of `src/parser.rs` and the line-classification loop that
 builds it. The input is the sequence of raw lines as `read_line` returns
 them, each still carrying its terminator. Where the source calls `unwrap()`
 on a missing parent and panics, the model returns a `ParseError` that names
 the line and the missing level.
 */
module Parser {
  import opened Wrappers
  import opened Text

  datatype Paragraph = Paragraph(content: string)
  datatype Chapter = Chapter(title: string, paragraphs: seq<Paragraph>)
  datatype Book = Book(title: string, chapters: seq<Chapter>)
  datatype Document = Document(books: seq<Book>)

  /** Which parent an `unwrap()` found missing. */
  datatype Missing = NoBook | NoChapter

  /** A panic of the source, located at the (0-based) index of the offending line. */
  datatype ParseError = ParseError(line: nat, missing: Missing)

  // ---------------------------------------------------------------------
  // Counts
  // ---------------------------------------------------------------------

  function ParagraphsIn(chapters: seq<Chapter>): nat {
    if |chapters| == 0 then 0 else |chapters[0].paragraphs| + ParagraphsIn(chapters[1..])
  }

  function ChaptersIn(books: seq<Book>): nat {
    if |books| == 0 then 0 else |books[0].chapters| + ChaptersIn(books[1..])
  }

  function ParagraphsInBooks(books: seq<Book>): nat {
    if |books| == 0 then 0 else ParagraphsIn(books[0].chapters) + ParagraphsInBooks(books[1..])
  }

  function TotalChapters(d: Document): nat {
    ChaptersIn(d.books)
  }

  function TotalParagraphs(d: Document): nat {
    ParagraphsInBooks(d.books)
  }

  // ---------------------------------------------------------------------
  // What each `push` does to the tree, stated as "one more at the end,
  // nothing else changed"
  // ---------------------------------------------------------------------

  predicate ParagraphAppendedToChapter(before: Chapter, after: Chapter, p: Paragraph) {
    && after.title == before.title
    && |after.paragraphs| == |before.paragraphs| + 1
    && after.paragraphs[..|before.paragraphs|] == before.paragraphs
    && after.paragraphs[|before.paragraphs|] == p
  }

  predicate ChapterAppendedToBook(before: Book, after: Book, c: Chapter) {
    && after.title == before.title
    && |after.chapters| == |before.chapters| + 1
    && after.chapters[..|before.chapters|] == before.chapters
    && after.chapters[|before.chapters|] == c
  }

  /** Only the last chapter changed, and it gained `p` at its end. */
  predicate ParagraphAppendedToBook(before: Book, after: Book, p: Paragraph) {
    var n := |before.chapters|;
    && after.title == before.title
    && n > 0 && |after.chapters| == n
    && after.chapters[..n - 1] == before.chapters[..n - 1]
    && ParagraphAppendedToChapter(before.chapters[n - 1], after.chapters[n - 1], p)
  }

  predicate BookAppended(before: Document, after: Document, b: Book) {
    && |after.books| == |before.books| + 1
    && after.books[..|before.books|] == before.books
    && after.books[|before.books|] == b
  }

  /** Only the last book changed, and it gained `c` as its last chapter. */
  predicate ChapterAppended(before: Document, after: Document, c: Chapter) {
    var n := |before.books|;
    && n > 0 && |after.books| == n
    && after.books[..n - 1] == before.books[..n - 1]
    && ChapterAppendedToBook(before.books[n - 1], after.books[n - 1], c)
  }

  /** Only the last chapter of the last book changed, and it gained `p` at its end. */
  predicate ParagraphAppended(before: Document, after: Document, p: Paragraph) {
    var n := |before.books|;
    && n > 0 && |after.books| == n
    && after.books[..n - 1] == before.books[..n - 1]
    && ParagraphAppendedToBook(before.books[n - 1], after.books[n - 1], p)
  }

  // ---------------------------------------------------------------------
  // add_book / add_chapter / add_paragraph
  // ---------------------------------------------------------------------

  /** `WealthOfNationsChapter::add_paragraph` */
  function AddParagraphToChapter(c: Chapter, p: Paragraph): (r: Chapter)
    ensures ParagraphAppendedToChapter(c, r, p)
  {
    c.(paragraphs := c.paragraphs + [p])
  }

  /** `WealthOfNationsBook::add_chapter` */
  function AddChapterToBook(b: Book, c: Chapter): (r: Book)
    ensures ChapterAppendedToBook(b, r, c)
  {
    b.(chapters := b.chapters + [c])
  }

  /** `WealthOfNationsBook::add_paragraph`: fails where `last_mut().unwrap()` panics. */
  function AddParagraphToBook(b: Book, p: Paragraph): (r: Result<Book, Missing>)
    ensures r.Success? <==> |b.chapters| > 0
    ensures r.Failure? ==> r.error == NoChapter
    ensures r.Success? ==> ParagraphAppendedToBook(b, r.value, p)
  {
    if |b.chapters| == 0 then Failure(NoChapter)
    else
      var n := |b.chapters|;
      Success(b.(chapters := b.chapters[..n - 1] + [AddParagraphToChapter(b.chapters[n - 1], p)]))
  }

  /** `WealthOfNations::add_book` */
  function AddBook(d: Document, b: Book): (r: Document)
    ensures BookAppended(d, r, b)
  {
    d.(books := d.books + [b])
  }

  /** `WealthOfNations::add_chapter`: fails where `last_mut().unwrap()` panics. */
  function AddChapter(d: Document, c: Chapter): (r: Result<Document, Missing>)
    ensures r.Success? <==> |d.books| > 0
    ensures r.Failure? ==> r.error == NoBook
    ensures r.Success? ==> ChapterAppended(d, r.value, c)
  {
    if |d.books| == 0 then Failure(NoBook)
    else
      var n := |d.books|;
      Success(d.(books := d.books[..n - 1] + [AddChapterToBook(d.books[n - 1], c)]))
  }

  /** `WealthOfNations::add_paragraph`: fails where either `unwrap()` on the way down panics. */
  function AddParagraph(d: Document, p: Paragraph): (r: Result<Document, Missing>)
    ensures r.Success? <==> |d.books| > 0 && |d.books[|d.books| - 1].chapters| > 0
    ensures r.Failure? ==> r.error == (if |d.books| == 0 then NoBook else NoChapter)
    ensures r.Success? ==> ParagraphAppended(d, r.value, p)
  {
    if |d.books| == 0 then Failure(NoBook)
    else
      var n := |d.books|;
      var b :- AddParagraphToBook(d.books[n - 1], p);
      Success(d.(books := d.books[..n - 1] + [b]))
  }

  // ---------------------------------------------------------------------
  // The line loop of `WealthOfNations::new`
  // ---------------------------------------------------------------------

  /** Raw byte length from which a non-marker line counts as a paragraph. */
  const ParagraphThreshold: nat := 70

  datatype LineKind = BookMarker | ChapterMarker | ParagraphLine | Skipped

  /** The if-chain of the loop: `BOOK` prefix, then `CHAPTER` prefix, then raw length. */
  function Classify(line: string): LineKind {
    if StartsWith(line, "BOOK") then BookMarker
    else if StartsWith(line, "CHAPTER") then ChapterMarker
    else if Utf8Len(line) >= ParagraphThreshold then ParagraphLine
    else Skipped
  }

  predicate IsMarker(line: string) {
    Classify(line) == BookMarker || Classify(line) == ChapterMarker
  }

  /**
   The title a marker on line `i` receives: the marker is trimmed, the next
   raw line (if any) is appended to it by `read_line`, and the whole is
   trimmed again.
   */
  function MarkerTitle(lines: seq<string>, i: nat): string
    requires i < |lines|
  {
    Trim(Trim(lines[i]) + (if i + 1 < |lines| then lines[i + 1] else ""))
  }

  /** How many lines one turn of the loop reads: a marker also reads its title line. */
  function Consumed(lines: seq<string>, i: nat): nat
    requires i < |lines|
  {
    if IsMarker(lines[i]) then 2 else 1
  }

  function Locate(r: Result<Document, Missing>, line: nat): (located: Result<Document, ParseError>) {
    match r
    case Success(d) => Success(d)
    case Failure(m) => Failure(ParseError(line, m))
  }

  /** One turn of the loop on line `i`, stated per branch in terms of the raw line. */
  function Step(doc: Document, lines: seq<string>, i: nat): (r: Result<Document, ParseError>)
    requires i < |lines|
    ensures StartsWith(lines[i], "BOOK") ==>
              r.Success? && BookAppended(doc, r.value, Book(MarkerTitle(lines, i), []))
    ensures !StartsWith(lines[i], "BOOK") && StartsWith(lines[i], "CHAPTER") ==>
              && (r.Success? <==> |doc.books| > 0)
              && (r.Failure? ==> r.error == ParseError(i, NoBook))
              && (r.Success? ==> ChapterAppended(doc, r.value, Chapter(MarkerTitle(lines, i), [])))
    ensures !StartsWith(lines[i], "BOOK") && !StartsWith(lines[i], "CHAPTER") && Utf8Len(lines[i]) >= ParagraphThreshold ==>
              && (r.Success? <==> |doc.books| > 0 && |doc.books[|doc.books| - 1].chapters| > 0)
              && (r.Failure? ==> r.error == ParseError(i, if |doc.books| == 0 then NoBook else NoChapter))
              && (r.Success? ==> ParagraphAppended(doc, r.value, Paragraph(Trim(lines[i]))))
    ensures !StartsWith(lines[i], "BOOK") && !StartsWith(lines[i], "CHAPTER") && Utf8Len(lines[i]) < ParagraphThreshold ==>
              r == Success(doc)
  {
    match Classify(lines[i])
    case BookMarker => Success(AddBook(doc, Book(MarkerTitle(lines, i), [])))
    case ChapterMarker => Locate(AddChapter(doc, Chapter(MarkerTitle(lines, i), [])), i)
    case ParagraphLine => Locate(AddParagraph(doc, Paragraph(Trim(lines[i]))), i)
    case Skipped => Success(doc)
  }

  /** The loop from line `i` on, with the tree built so far; the first failing turn ends it. */
  function ParseFrom(lines: seq<string>, i: nat, doc: Document): Result<Document, ParseError>
    decreases |lines| - i
  {
    if i >= |lines| then Success(doc)
    else
      var next :- Step(doc, lines, i);
      ParseFrom(lines, i + Consumed(lines, i), next)
  }

  /** `WealthOfNations::new`, once the file has been read into lines. */
  function Parse(lines: seq<string>): Result<Document, ParseError> {
    ParseFrom(lines, 0, Document([]))
  }

  /** `WealthOfNations::new` on the whole text of the file. */
  function ParseText(text: string): Result<Document, ParseError> {
    Parse(ReadLines(text))
  }

  /** Parsing a file's text parses exactly the lines it is made of, terminators included. */
  lemma ParseTextOfLines(lines: seq<string>)
    requires IsLineSplit(lines)
    ensures ParseText(Concat(lines)) == Parse(lines)
  {
    ReadLinesOfConcat(lines);
  }

  // ---------------------------------------------------------------------
  // Facts about single lines
  // ---------------------------------------------------------------------

  /** The threshold on an ASCII line: 69 characters with the newline are skipped, 70 make a paragraph. */
  lemma ThresholdBoundary(line: string)
    requires IsAscii(line) && !StartsWith(line, "BOOK") && !StartsWith(line, "CHAPTER")
    ensures |line| == 69 ==> Classify(line) == Skipped
    ensures |line| == 70 ==> Classify(line) == ParagraphLine
  {
    AsciiUtf8Len(line);
  }

  /**
   The stored title is the trimmed marker directly followed by the next raw
   line with only its end trimmed: no separator is inserted, and the next
   line's leading whitespace is kept.
   */
  lemma MarkerTitleShape(lines: seq<string>, i: nat)
    requires i < |lines| && IsMarker(lines[i])
    ensures MarkerTitle(lines, i) == Trim(lines[i]) + TrimEnd(if i + 1 < |lines| then lines[i + 1] else "")
  {
    var line := lines[i];
    var next := if i + 1 < |lines| then lines[i + 1] else "";
    assert line[0] == 'B' || line[0] == 'C';
    TrimKeepsFirst(line);
    TrimSpec(line);
    TrimOfAppend(Trim(line), next);
  }
}
