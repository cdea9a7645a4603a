/**
 The string primitives the parser relies on, with Rust's meaning: `str::trim`,
 `str::starts_with`, `String::len` (a UTF-8 byte count) and the way
 `BufRead::read_line` cuts a text into lines that keep their terminator.
 A `string` is a sequence of Unicode scalar values.
 */
module Text {

  /** Rust's `char::is_whitespace`: the Unicode White_Space property. */
  predicate IsWhitespace(c: char) {
    || ('\U{9}' <= c <= '\U{D}')
    || c == ' '
    || c == '\U{85}'
    || c == '\U{A0}'
    || c == '\U{1680}'
    || ('\U{2000}' <= c <= '\U{200A}')
    || c == '\U{2028}'
    || c == '\U{2029}'
    || c == '\U{202F}'
    || c == '\U{205F}'
    || c == '\U{3000}'
  }

  predicate AllWhitespace(s: string) {
    forall i :: 0 <= i < |s| ==> IsWhitespace(s[i])
  }

  /** `str::trim_start`: drops the longest all-whitespace prefix. */
  function TrimStart(s: string): string {
    if |s| > 0 && IsWhitespace(s[0]) then TrimStart(s[1..]) else s
  }

  /** `str::trim_end`: drops the longest all-whitespace suffix. */
  function TrimEnd(s: string): string {
    if |s| > 0 && IsWhitespace(s[|s| - 1]) then TrimEnd(s[..|s| - 1]) else s
  }

  /** `str::trim`: both ends. */
  function Trim(s: string): string {
    TrimEnd(TrimStart(s))
  }

  /** `TrimStart` keeps a suffix, removes only whitespace, and stops at the first non-whitespace character. */
  lemma {:induction false} TrimStartSpec(s: string)
    ensures var r := TrimStart(s);
            && |r| <= |s| && r == s[|s| - |r|..]
            && AllWhitespace(s[..|s| - |r|])
            && (r == [] || !IsWhitespace(r[0]))
  {
    if |s| > 0 && IsWhitespace(s[0]) {
      TrimStartSpec(s[1..]);
      var r := TrimStart(s);
      assert s[..|s| - |r|] == [s[0]] + s[1..][..|s[1..]| - |r|];
    }
  }

  /** `TrimEnd` keeps a prefix, removes only whitespace, and stops at the last non-whitespace character. */
  lemma {:induction false} TrimEndSpec(s: string)
    ensures var r := TrimEnd(s);
            && |r| <= |s| && r == s[..|r|]
            && AllWhitespace(s[|r|..])
            && (r == [] || !IsWhitespace(r[|r| - 1]))
  {
    if |s| > 0 && IsWhitespace(s[|s| - 1]) {
      var p := s[..|s| - 1];
      TrimEndSpec(p);
      var r := TrimEnd(s);
      assert s[|r|..] == p[|r|..] + [s[|s| - 1]];
    }
  }

  /**
   `Trim` leaves the infix of `s` that remains after removing whitespace at
   both ends, and neither end of what remains is whitespace.
   */
  lemma TrimSpec(s: string)
    ensures |TrimStart(s)| <= |s|
    ensures var r, k := Trim(s), |s| - |TrimStart(s)|;
            && k + |r| <= |s|
            && r == s[k..k + |r|]
            && AllWhitespace(s[..k])
            && AllWhitespace(s[k + |r|..])
            && (r == [] || (!IsWhitespace(r[0]) && !IsWhitespace(r[|r| - 1])))
  {
    var t := TrimStart(s);
    var r := TrimEnd(t);
    TrimStartSpec(s);
    TrimEndSpec(t);
    var k := |s| - |t|;
    assert s[k + |r|..] == t[|r|..];
    assert s[k..k + |r|] == t[..|r|];
  }

  /** Trimming twice is trimming once. */
  lemma TrimIdempotent(s: string)
    ensures Trim(Trim(s)) == Trim(s)
  {
    var r := Trim(s);
    TrimSpec(s);
    if |r| > 0 {
      assert TrimStart(r) == r;
      assert TrimEnd(r) == r;
    }
  }

  /** Trimming the end of `a + b` never cuts into `a` when `a` ends in a non-whitespace character. */
  lemma {:induction false} TrimEndOfAppend(a: string, b: string)
    requires |a| > 0 && !IsWhitespace(a[|a| - 1])
    ensures TrimEnd(a + b) == a + TrimEnd(b)
    decreases |b|
  {
    if |b| > 0 && IsWhitespace(b[|b| - 1]) {
      assert (a + b)[..|a + b| - 1] == a + b[..|b| - 1];
      TrimEndOfAppend(a, b[..|b| - 1]);
    } else if |b| == 0 {
      assert a + b == a;
    }
  }

  /** Trimming `a + b` keeps all of `a` when neither end of `a` is whitespace. */
  lemma TrimOfAppend(a: string, b: string)
    requires |a| > 0 && !IsWhitespace(a[0]) && !IsWhitespace(a[|a| - 1])
    ensures Trim(a + b) == a + TrimEnd(b)
  {
    assert (a + b)[0] == a[0];
    assert TrimStart(a + b) == a + b;
    TrimEndOfAppend(a, b);
  }

  /** A text that starts with a non-whitespace character keeps that character first when trimmed. */
  lemma TrimKeepsFirst(s: string)
    requires |s| > 0 && !IsWhitespace(s[0])
    ensures |Trim(s)| > 0 && Trim(s)[0] == s[0]
  {
    assert TrimStart(s) == s;
    TrimEndSpec(s);
  }

  /** `str::starts_with` for a string pattern. */
  predicate StartsWith(s: string, prefix: string) {
    |prefix| <= |s| && s[..|prefix|] == prefix
  }

  /** Number of bytes UTF-8 uses for one scalar value. */
  function Utf8Width(c: char): nat {
    if c as int < 0x80 then 1
    else if c as int < 0x800 then 2
    else if c as int < 0x1_0000 then 3
    else 4
  }

  /** `String::len`: the length of the UTF-8 encoding, in bytes. */
  function Utf8Len(s: string): (n: nat)
    ensures |s| <= n <= 4 * |s|
  {
    if |s| == 0 then 0 else Utf8Width(s[0]) + Utf8Len(s[1..])
  }

  predicate IsAscii(s: string) {
    forall i :: 0 <= i < |s| ==> s[i] as int < 0x80
  }

  /** On ASCII text the byte count is the character count. */
  lemma {:induction false} AsciiUtf8Len(s: string)
    requires IsAscii(s)
    ensures Utf8Len(s) == |s|
  {
    if |s| > 0 {
      AsciiUtf8Len(s[1..]);
    }
  }

  /** The byte count of a concatenation is the sum of the byte counts. */
  lemma {:induction false} Utf8LenAppend(a: string, b: string)
    ensures Utf8Len(a + b) == Utf8Len(a) + Utf8Len(b)
  {
    if |a| > 0 {
      assert (a + b)[1..] == a[1..] + b;
      Utf8LenAppend(a[1..], b);
    } else {
      assert a + b == b;
    }
  }

  /**
   A chunk as `read_line` hands it back: non-empty, with a newline at most
   as its last character.
   */
  predicate IsLine(line: string) {
    && |line| > 0
    && forall i :: 0 <= i < |line| - 1 ==> line[i] != '\n'
  }

  /** A sequence of chunks that successive `read_line` calls can return: only the last may lack its newline. */
  predicate IsLineSplit(lines: seq<string>) {
    && (forall k :: 0 <= k < |lines| ==> IsLine(lines[k]))
    && (forall k :: 0 <= k < |lines| - 1 ==> lines[k][|lines[k]| - 1] == '\n')
  }

  function Concat(lines: seq<string>): string {
    if |lines| == 0 then "" else lines[0] + Concat(lines[1..])
  }

  /** Length of the first chunk `read_line` takes from a non-empty text: up to and including the first newline. */
  function FirstLineLength(text: string): (n: nat)
    requires |text| > 0
    ensures 0 < n <= |text|
    ensures forall i :: 0 <= i < n - 1 ==> text[i] != '\n'
    ensures n < |text| ==> text[n - 1] == '\n'
  {
    if text[0] == '\n' || |text| == 1 then 1 else 1 + FirstLineLength(text[1..])
  }

  /**
   The chunks a loop of `read_line` calls returns until it reads zero bytes:
   they concatenate back to the text and form a line split.
   */
  function ReadLines(text: string): (lines: seq<string>)
    ensures Concat(lines) == text
    ensures IsLineSplit(lines)
    decreases |text|
  {
    if |text| == 0 then []
    else
      var n := FirstLineLength(text);
      var rest := ReadLines(text[n..]);
      assert text[..n] + text[n..] == text;
      assert ([text[..n]] + rest)[1..] == rest;
      [text[..n]] + rest
  }

  /** The converse round trip: a line split is exactly what `ReadLines` recovers from its concatenation. */
  lemma {:induction false} ReadLinesOfConcat(lines: seq<string>)
    requires IsLineSplit(lines)
    ensures ReadLines(Concat(lines)) == lines
  {
    if |lines| > 0 {
      var text := Concat(lines);
      var first := lines[0];
      assert IsLine(first);
      assert text == first + Concat(lines[1..]);
      var n := FirstLineLength(text);
      if |lines| == 1 {
        assert Concat(lines[1..]) == "";
        assert |text| == |first|;
      } else {
        assert text[|first| - 1] == first[|first| - 1] == '\n';
      }
      if n < |first| {
        assert false;
      } else if |first| < n {
        assert false;
      }
      assert text[..n] == first;
      assert text[n..] == Concat(lines[1..]);
      assert IsLineSplit(lines[1..]) by {
        forall k | 0 <= k < |lines[1..]|
          ensures IsLine(lines[1..][k])
        {
          assert lines[1..][k] == lines[k + 1];
        }
      }
      ReadLinesOfConcat(lines[1..]);
    }
  }
}
