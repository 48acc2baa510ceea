/**
 * How the analysis text is laid out: split on newlines, each line trimmed,
 * blank lines dropped, and every other line shown as a header (`**...**`),
 * a bullet (`* ...`) or a paragraph.  A string is a sequence of Unicode
 * scalar values; every position the layout inspects (newlines, white space,
 * `*`) is a single-unit character in JavaScript too, so positions agree.
 */
module AnalysisText {

  /** One rendered element. */
  datatype Block = Header(text: string) | Bullet(text: string) | Paragraph(text: string)

  /** `String.prototype.split('\n')`: the pieces between newlines, one more than there are newlines. */
  function Split(s: string): (lines: seq<string>)
    ensures |lines| >= 1
    decreases |s|
  {
    if |s| == 0 then [""] else Cons(s[0], Split(s[1..]))
  }

  /** The pieces of `[c] + s` from the pieces of `s`: a newline starts a new piece, anything else joins the first. */
  function Cons(c: char, lines: seq<string>): (r: seq<string>)
    requires |lines| >= 1
    ensures |r| >= 1
  {
    if c == '\n' then [""] + lines else [[c] + lines[0]] + lines[1..]
  }

  lemma ConsAppend(c: char, front: seq<string>, back: seq<string>)
    requires |front| >= 1
    ensures Cons(c, front + back) == Cons(c, front) + back
  {
    if c != '\n' {
      assert (front + back)[1..] == front[1..] + back;
    }
  }

  /** No piece contains a newline. */
  lemma {:induction false} SplitPiecesNewlineFree(s: string)
    ensures forall i :: 0 <= i < |Split(s)| ==> '\n' !in Split(s)[i]
    decreases |s|
  {
    if |s| > 0 {
      SplitPiecesNewlineFree(s[1..]);
      var rest := Split(s[1..]);
      if s[0] != '\n' {
        var lines := Split(s);
        assert lines[0] == [s[0]] + rest[0];
        assert forall i :: 1 <= i < |lines| ==> lines[i] == rest[i];
      }
    }
  }

  /** `lines.join('\n')`. */
  function Join(lines: seq<string>): string
    requires |lines| >= 1
    decreases |lines|
  {
    if |lines| == 1 then lines[0] else lines[0] + "\n" + Join(lines[1..])
  }

  /** Joining the pieces gives back the text. */
  lemma {:induction false} JoinSplit(s: string)
    ensures Join(Split(s)) == s
    decreases |s|
  {
    if |s| > 0 {
      JoinSplit(s[1..]);
      var rest := Split(s[1..]);
      if s[0] == '\n' {
        assert ([""] + rest)[1..] == rest;
      } else {
        var lines := [[s[0]] + rest[0]] + rest[1..];
        if |rest| == 1 {
          assert Join(lines) == [s[0]] + rest[0];
        } else {
          assert lines[1..] == rest[1..];
          assert Join(rest) == rest[0] + "\n" + Join(rest[1..]);
        }
      }
    }
  }

  /** Splitting newline-free lines joined by newlines gives back the lines. */
  lemma {:induction false} SplitJoin(lines: seq<string>)
    requires |lines| >= 1
    requires forall i :: 0 <= i < |lines| ==> '\n' !in lines[i]
    ensures Split(Join(lines)) == lines
    decreases |lines|
  {
    if |lines| == 1 {
      SplitNoNewline(lines[0]);
    } else {
      var tail := lines[1..];
      assert forall i :: 0 <= i < |tail| ==> tail[i] == lines[i + 1];
      SplitJoin(tail);
      SplitAcross(lines[0], Join(tail));
      SplitNoNewline(lines[0]);
      assert [lines[0]] + tail == lines;
    }
  }

  /** A text without newlines is a single piece. */
  lemma {:induction false} SplitNoNewline(s: string)
    requires '\n' !in s
    ensures Split(s) == [s]
    decreases |s|
  {
    if |s| > 0 {
      assert '\n' !in s[1..] by {
        assert forall i :: 0 <= i < |s[1..]| ==> s[1..][i] == s[i + 1];
      }
      SplitNoNewline(s[1..]);
      assert [s[0]] + s[1..] == s;
    }
  }

  /** Splitting around a newline splits each side separately, the last piece of the left meeting nothing. */
  lemma {:induction false} SplitAcross(a: string, b: string)
    ensures Split(a + "\n" + b) == Split(a) + Split(b)
    decreases |a|
  {
    var whole := a + "\n" + b;
    if |a| == 0 {
      assert whole[1..] == b;
      assert Split(whole) == Cons('\n', Split(b));
    } else {
      assert whole[1..] == a[1..] + "\n" + b;
      assert Split(whole) == Cons(a[0], Split(whole[1..]));
      SplitAcross(a[1..], b);
      ConsAppend(a[0], Split(a[1..]), Split(b));
    }
  }

  /** The characters `String.prototype.trim` removes: white space and line terminators. */
  predicate IsSpace(c: char) {
    || c == '\t' || c == '\n' || c == '\U{B}' || c == '\U{C}' || c == '\r' || c == ' '
    || c == '\U{A0}' || c == '\U{1680}' || ('\U{2000}' <= c <= '\U{200A}')
    || c == '\U{2028}' || c == '\U{2029}' || c == '\U{202F}' || c == '\U{205F}'
    || c == '\U{3000}' || c == '\U{FEFF}'
  }

  /** Drop leading white space. */
  function TrimStart(s: string): (r: string)
    ensures |r| <= |s| && r == s[|s| - |r|..]
    ensures forall i :: 0 <= i < |s| - |r| ==> IsSpace(s[i])
    ensures |r| > 0 ==> !IsSpace(r[0])
    decreases |s|
  {
    if |s| > 0 && IsSpace(s[0]) then TrimStart(s[1..]) else s
  }

  /** Drop trailing white space. */
  function TrimEnd(s: string): (r: string)
    ensures |r| <= |s| && r == s[..|r|]
    ensures forall i :: |r| <= i < |s| ==> IsSpace(s[i])
    ensures |r| > 0 ==> !IsSpace(r[|r| - 1])
    decreases |s|
  {
    if |s| > 0 && IsSpace(s[|s| - 1]) then TrimEnd(s[..|s| - 1]) else s
  }

  /** `r` is `s` with `i` characters of white space cut from the front and only white space cut from the back. */
  predicate Stripped(s: string, r: string, i: int) {
    && 0 <= i <= i + |r| <= |s| && r == s[i..i + |r|]
    && (forall k :: 0 <= k < i ==> IsSpace(s[k]))
    && (forall k :: i + |r| <= k < |s| ==> IsSpace(s[k]))
  }

  /** `String.prototype.trim`. */
  function Trim(s: string): (r: string)
    ensures |r| <= |s|
    ensures |r| > 0 ==> !IsSpace(r[0]) && !IsSpace(r[|r| - 1])
  {
    TrimEnd(TrimStart(s))
  }

  /**
   * What trimming does: it cuts white space, and only white space, from
   * both ends of the line, leaving a line that neither starts nor ends with
   * white space; the result is empty exactly when the line was all white space.
   */
  lemma TrimSpec(s: string)
    ensures Stripped(s, Trim(s), |s| - |TrimStart(s)|)
    ensures |Trim(s)| > 0 ==> !IsSpace(Trim(s)[0]) && !IsSpace(Trim(s)[|Trim(s)| - 1])
    ensures Trim(s) == "" <==> forall k :: 0 <= k < |s| ==> IsSpace(s[k])
  {
    TrimStripped(s);
    TrimEnds(s);
    var r := Trim(s);
    if r != "" {
      assert r[0] == s[|s| - |TrimStart(s)|];
    }
  }

  lemma TrimStripped(s: string)
    ensures Stripped(s, Trim(s), |s| - |TrimStart(s)|)
  {
    var t := TrimStart(s);
    StrippedParts(s, t, TrimEnd(t), |s| - |t|);
  }

  lemma TrimEnds(s: string)
    ensures |Trim(s)| > 0 ==> !IsSpace(Trim(s)[0]) && !IsSpace(Trim(s)[|Trim(s)| - 1])
  {
    var t := TrimStart(s);
    var r := TrimEnd(t);
    if |r| > 0 {
      assert r[0] == t[0];
    }
  }

  lemma StrippedParts(s: string, t: string, r: string, i: int)
    requires 0 <= i <= |s| && t == s[i..] && |r| <= |t| && r == t[..|r|]
    requires forall k :: 0 <= k < i ==> IsSpace(s[k])
    requires forall k :: |r| <= k < |t| ==> IsSpace(t[k])
    ensures Stripped(s, r, i)
  {
    forall k | i + |r| <= k < |s|
      ensures IsSpace(s[k])
    {
      assert s[k] == t[k - i];
    }
  }

  /** Trimming a trimmed line changes nothing. */
  lemma TrimIdempotent(s: string)
    ensures Trim(Trim(s)) == Trim(s)
  {
    var t := Trim(s);
    if |t| > 0 {
      assert TrimStart(t) == t;
      assert TrimEnd(t) == t;
    }
  }

  function StartsWith(s: string, prefix: string): bool {
    |prefix| <= |s| && s[..|prefix|] == prefix
  }

  function EndsWith(s: string, suffix: string): bool {
    |suffix| <= |s| && s[|s| - |suffix|..] == suffix
  }

  /** `String.prototype.substring`: both ends clamped into the string, then taken in increasing order. */
  function Substring(s: string, start: int, end: int): (r: string)
    ensures 0 <= start <= end <= |s| ==> r == s[start..end]
    ensures 0 <= end <= start <= |s| ==> r == s[end..start]
  {
    var a := if start < 0 then 0 else if start > |s| then |s| else start;
    var b := if end < 0 then 0 else if end > |s| then |s| else end;
    if a <= b then s[a..b] else s[b..a]
  }

  /** How one trimmed, non-blank line is shown.  The header test comes first. */
  function Classify(line: string): (b: Block)
    ensures b.Header? <==> StartsWith(line, "**") && EndsWith(line, "**")
    ensures b.Bullet? <==> !b.Header? && StartsWith(line, "* ")
    ensures b.Header? && |line| >= 4 ==> "**" + b.text + "**" == line
    ensures b.Header? && |line| == 2 ==> b.text == "**"
    ensures b.Header? && |line| == 3 ==> b.text == "*"
    ensures b.Bullet? ==> "* " + b.text == line
    ensures b.Paragraph? ==> b.text == line
  {
    if StartsWith(line, "**") && EndsWith(line, "**") then
      var text := Substring(line, 2, |line| - 2);
      assert |line| >= 4 ==> line == line[..2] + text + line[|line| - 2..];
      Header(text)
    else if StartsWith(line, "* ") then
      var text := Substring(line, 2, |line|);
      assert line == line[..2] + text;
      Bullet(text)
    else Paragraph(line)
  }

  /** The elements produced by `f` for each line, concatenated in line order. */
  function ConcatMap(f: string -> seq<Block>, lines: seq<string>): (r: seq<Block>)
    ensures (forall line :: |f(line)| <= 1) ==> |r| <= |lines|
    decreases |lines|
  {
    if |lines| == 0 then [] else f(lines[0]) + ConcatMap(f, lines[1..])
  }

  /** Concatenating the lines concatenates their elements. */
  lemma {:induction false} ConcatMapAppend(f: string -> seq<Block>, a: seq<string>, b: seq<string>)
    ensures ConcatMap(f, a + b) == ConcatMap(f, a) + ConcatMap(f, b)
    decreases |a|
  {
    if |a| == 0 {
      assert a + b == b;
    } else {
      assert (a + b)[0] == a[0];
      assert (a + b)[1..] == a[1..] + b;
      ConcatMapAppend(f, a[1..], b);
    }
  }

  /** The elements for one line: none when blank after trimming, else its classification. */
  function LineBlocks(line: string): (r: seq<Block>)
    ensures |r| <= 1
  {
    var t := Trim(line);
    if t == "" then [] else [Classify(t)]
  }

  /** The elements for a sequence of lines, in order. */
  function FormatLines(lines: seq<string>): (r: seq<Block>)
    ensures |r| <= |lines|
  {
    ConcatMap(LineBlocks, lines)
  }

  /** FormattedAnalysis: the elements shown for the analysis text. */
  function Format(text: string): (r: seq<Block>)
    ensures |r| <= |Split(text)|
  {
    FormatLines(Split(text))
  }

  lemma FormatLinesAppend(a: seq<string>, b: seq<string>)
    ensures FormatLines(a + b) == FormatLines(a) + FormatLines(b)
  {
    ConcatMapAppend(LineBlocks, a, b);
  }

  /**
   * A line without newlines shows as nothing when blank and otherwise as
   * the one element its trimmed text classifies as; and the text around a
   * newline shows as the elements of the part before it followed by those
   * of the part after it.  Together these fix the output for every text:
   * one element per non-blank line, in line order.
   */
  lemma FormatLineByLine(line: string, a: string, b: string)
    requires '\n' !in line
    ensures Format(line) == if Trim(line) == "" then [] else [Classify(Trim(line))]
    ensures Format(a + "\n" + b) == Format(a) + Format(b)
  {
    SplitNoNewline(line);
    assert ConcatMap(LineBlocks, [line]) == LineBlocks(line) + ConcatMap(LineBlocks, []);
    SplitAcross(a, b);
    FormatLinesAppend(Split(a), Split(b));
  }
}
