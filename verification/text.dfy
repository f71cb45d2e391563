/** Text arithmetic of the editor's screen: splitting the buffer into lines
    the way Python's `str.split('\n')` does, the cursor's row and column
    derived from the text before it, and the ellipsis truncation of a line
    that is wider than the editor box; and Python's character classes the
    editor tests. */
module Text {

  /** The number of newlines in `s`. */
  function NewlineCount(s: string): nat
  {
    if |s| == 0 then 0 else (if s[0] == '\n' then 1 else 0) + NewlineCount(s[1..])
  }

  /** A text has no newline exactly when its newline count is zero. */
  lemma {:induction false} NewlineCountZero(s: string)
    ensures NewlineCount(s) == 0 <==> '\n' !in s
  {
    if |s| > 0 {
      NewlineCountZero(s[1..]);
      assert s == [s[0]] + s[1..];
    }
  }

  /** Python's `s.split('\n')`: the pieces between newlines, in order. The
      empty string gives one empty piece, and a trailing newline gives a
      trailing empty piece. */
  function Split(s: string): (lines: seq<string>)
    ensures |lines| == NewlineCount(s) + 1
    ensures forall i :: 0 <= i < |lines| ==> '\n' !in lines[i]
    decreases |s|
  {
    if |s| == 0 then [""]
    else
      var rest := Split(s[1..]);
      if s[0] == '\n' then [""] + rest
      else [[s[0]] + rest[0]] + rest[1..]
  }

  /** Python's `'\n'.join(lines)`. */
  function Join(lines: seq<string>): string
  {
    if |lines| == 0 then ""
    else if |lines| == 1 then lines[0]
    else lines[0] + "\n" + Join(lines[1..])
  }

  /** Splitting then joining gives back the text. */
  lemma {:induction false} JoinSplit(s: string)
    ensures Join(Split(s)) == s
    decreases |s|
  {
    if |s| > 0 {
      var t := s[1..];
      JoinSplit(t);
      var rest := Split(t);
      assert s == [s[0]] + t;
      if s[0] == '\n' {
        var lines := [""] + rest;
        assert Split(s) == lines;
        assert lines[1..] == rest;
        assert Join(lines) == "" + "\n" + Join(rest);
      } else if |rest| == 1 {
        assert Join(rest) == rest[0];
        assert Split(s) == [[s[0]] + rest[0]];
      } else {
        var head := [s[0]] + rest[0];
        var lines := [head] + rest[1..];
        assert Split(s) == lines;
        assert lines[1..] == rest[1..];
        assert Join(lines) == head + "\n" + Join(rest[1..]);
        assert Join(rest) == rest[0] + "\n" + Join(rest[1..]);
      }
    }
  }

  /** Joining newline-free pieces then splitting gives back the pieces. */
  lemma {:induction false} SplitJoin(lines: seq<string>)
    requires |lines| > 0
    requires forall i :: 0 <= i < |lines| ==> '\n' !in lines[i]
    ensures Split(Join(lines)) == lines
    decreases |lines|, |lines[0]|
  {
    var head := lines[0];
    var tail := lines[1..];
    if |head| > 0 {
      // peel the first character off the first piece
      var shorter := [head[1..]] + tail;
      assert forall i :: 1 <= i < |shorter| ==> shorter[i] == lines[i];
      SplitJoin(shorter);
      var j := Join(shorter);
      assert Join(lines) == [head[0]] + j by {
        if |lines| == 1 {
          assert Join(lines) == head;
          assert Join(shorter) == head[1..];
        } else {
          assert Join(lines) == head + "\n" + Join(tail);
          assert shorter[1..] == tail;
          assert j == head[1..] + "\n" + Join(tail);
        }
        assert head == [head[0]] + head[1..];
      }
      assert ([head[0]] + j)[1..] == j;
      assert head[0] != '\n';
      assert Split(Join(lines)) == [[head[0]] + shorter[0]] + shorter[1..];
      assert head == [head[0]] + head[1..];
      assert shorter[1..] == tail;
      assert lines == [head] + tail;
    } else if |lines| > 1 {
      assert forall i :: 0 <= i < |tail| ==> tail[i] == lines[i + 1];
      SplitJoin(tail);
      var j := Join(tail);
      assert Join(lines) == "" + "\n" + j;
      assert ("\n" + j)[1..] == j;
      assert Split(Join(lines)) == [""] + tail;
      assert lines == [head] + tail;
    }
  }

  /** `n` is the length of the text after the last newline of `p` (all of
      `p` when it holds no newline). */
  ghost predicate IsLastLineLength(p: string, n: int)
  {
    && 0 <= n <= |p|
    && '\n' !in p[|p| - n..]
    && (n == |p| || p[|p| - n - 1] == '\n')
  }

  /** `last` is the text after the last newline of `s`: a suffix of `s`
      that is either all of `s` or preceded by a newline. */
  ghost predicate IsTailAfterNewline(s: string, last: string)
  {
    && |last| <= |s|
    && last == s[|s| - |last|..]
    && (|last| == |s| || s[|s| - |last| - 1] == '\n')
  }

  /** The last piece of the split of `s`. */
  function LastPiece(s: string): string
  {
    Split(s)[NewlineCount(s)]
  }

  /** The last piece of a split is the text after the last newline. */
  lemma {:induction false} SplitLast(s: string)
    ensures IsTailAfterNewline(s, LastPiece(s))
    decreases |s|
  {
    if |s| > 0 {
      SplitLast(s[1..]);
      if s[0] == '\n' {
        SplitLastNewline(s);
      } else if NewlineCount(s[1..]) == 0 {
        SplitLastOnePiece(s);
      } else {
        SplitLastLaterPiece(s);
      }
    }
  }

  /** Step of SplitLast when the text starts with a newline. */
  lemma SplitLastNewline(s: string)
    requires |s| > 0 && s[0] == '\n'
    requires IsTailAfterNewline(s[1..], LastPiece(s[1..]))
    ensures IsTailAfterNewline(s, LastPiece(s))
  {
  }

  /** Step of SplitLast when the text holds no newline. */
  lemma SplitLastOnePiece(s: string)
    requires |s| > 0 && s[0] != '\n' && NewlineCount(s[1..]) == 0
    requires IsTailAfterNewline(s[1..], LastPiece(s[1..]))
    ensures IsTailAfterNewline(s, LastPiece(s))
  {
    var t := s[1..];
    NewlineCountZero(t);
    assert LastPiece(t) == t;
    assert LastPiece(s) == [s[0]] + t;
    assert s == [s[0]] + t;
  }

  /** Step of SplitLast when the first character is not a newline but a
      later one is. */
  lemma SplitLastLaterPiece(s: string)
    requires |s| > 0 && s[0] != '\n' && NewlineCount(s[1..]) > 0
    requires IsTailAfterNewline(s[1..], LastPiece(s[1..]))
    ensures IsTailAfterNewline(s, LastPiece(s))
  {
    var t := s[1..];
    var last := LastPiece(t);
    assert LastPiece(s) == last;
    assert t[|t| - |last|..] == s[|s| - |last|..];
    if |last| == |t| {
      assert last == t;
      NewlineCountZero(t);
      assert false;
    }
    assert s[|s| - |last| - 1] == t[|t| - |last| - 1];
  }

  /** The cursor's line index and column within that line, computed as the
      renderer does: split the text before the cursor and take the number of
      pieces less one, and the length of the last piece. */
  function CursorRowCol(prefix: string): (rc: (int, int))
    ensures rc.0 == NewlineCount(prefix)
    ensures IsLastLineLength(prefix, rc.1)
  {
    var lines := Split(prefix);
    SplitLast(prefix);
    (|lines| - 1, |lines[|lines| - 1]|)
  }

  /** Appending a character adds one to the newline count exactly when the
      character is a newline. */
  lemma {:induction false} NewlineCountAppend(s: string, c: char)
    ensures NewlineCount(s + [c]) == NewlineCount(s) + (if c == '\n' then 1 else 0)
  {
    if |s| > 0 {
      assert (s + [c])[1..] == s[1..] + [c];
      NewlineCountAppend(s[1..], c);
    } else {
      assert s + [c] == [c];
    }
  }

  /** A text has only one last-line length. */
  lemma LastLineLengthUnique(p: string, n: int, m: int)
    requires IsLastLineLength(p, n) && IsLastLineLength(p, m)
    ensures n == m
  {
  }

  /** Appending a newline starts an empty last line; appending any other
      character lengthens the last line by one. */
  lemma LastLineLengthAppend(p: string, n: int, c: char)
    requires IsLastLineLength(p, n)
    ensures IsLastLineLength(p + [c], if c == '\n' then 0 else n + 1)
  {
  }

  /** The cursor's row and column move as the text before it grows by one
      character: a newline moves to column 0 of the next row, anything else
      moves one column right on the same row. */
  lemma CursorAfterAppend(s: string, c: char)
    ensures CursorRowCol(s + [c])
         == if c == '\n' then (CursorRowCol(s).0 + 1, 0)
            else (CursorRowCol(s).0, CursorRowCol(s).1 + 1)
  {
    var rc := CursorRowCol(s);
    var rc' := CursorRowCol(s + [c]);
    NewlineCountAppend(s, c);
    LastLineLengthAppend(s, rc.1, c);
    LastLineLengthUnique(s + [c], rc'.1, if c == '\n' then 0 else rc.1 + 1);
  }

  /** Python's `s[:k]`: a negative `k` counts from the end. */
  function PyPrefix(s: string, k: int): (r: string)
    ensures |r| == if k >= 0 then (if k <= |s| then k else |s|)
                   else (if |s| + k >= 0 then |s| + k else 0)
    ensures r <= s
  {
    if k >= 0 then (if k <= |s| then s[..k] else s)
    else (if |s| + k >= 0 then s[..|s| + k] else "")
  }

  /** The editor box's truncation of a line as written: a line longer than
      the box's inner width `w - 2` is cut to `w - 5` characters followed by
      "...". */
  function TruncateAsWritten(line: string, w: int): (r: string)
    ensures |line| <= w - 2 ==> r == line
    ensures |line| > w - 2 ==> |r| >= 3 && r[|r| - 3..] == "..." && r[..|r| - 3] <= line
  {
    if |line| > w - 2 then PyPrefix(line, w - 5) + "..." else line
  }

  /** With room for the ellipsis (w >= 5) the truncated line fills the box's
      inner width exactly and starts with a prefix of the line. */
  lemma TruncateFitsWide(line: string, w: int)
    requires w >= 5
    ensures var r := TruncateAsWritten(line, w);
      && |r| <= w - 2
      && (|line| > w - 2 ==> |r| == w - 2 && r == line[..w - 5] + "...")
      && (|line| <= w - 2 ==> r == line)
  {
  }

  /** With a box narrower than 5 columns the slice bound `w - 5` is negative,
      Python counts it from the end of the line, and the "truncated" line is
      wider than the box. */
  lemma TruncateOverflowsNarrow()
    ensures TruncateAsWritten("abcdef", 4) == "abcde..."
    ensures |TruncateAsWritten("abcdef", 4)| > 4 - 2
  {
  }

  /** The truncation as intended: the result never exceeds the inner width
      `w - 2`; there is an ellipsis only when it fits. */
  function Truncate(line: string, w: int): (r: string)
    ensures |r| <= if w - 2 > 0 then w - 2 else 0
    ensures |line| <= w - 2 ==> r == line
    ensures w >= 5 ==> r == TruncateAsWritten(line, w)
    ensures |line| > w - 2 && w >= 5 ==> r[..w - 5] == line[..w - 5] && r[w - 5..] == "..."
    ensures |line| > w - 2 && w < 5 ==> r <= line
  {
    if |line| <= w - 2 then line
    else if w >= 5 then line[..w - 5] + "..."
    else line[..if w - 2 > 0 then w - 2 else 0]
  }

  /** Python's `str.isspace` for one character: the complete list of
      characters it accepts. */
  predicate IsSpace(c: char) {
    c in {'\t', '\n', '\U{0B}', '\U{0C}', '\r', ' ', '\U{85}', '\U{A0}', '\U{1680}',
          '\U{2028}', '\U{2029}', '\U{202F}', '\U{205F}', '\U{3000}'}
    || '\U{1C}' <= c <= '\U{1F}'
    || '\U{2000}' <= c <= '\U{200A}'
  }

  /** Python's `str.isprintable` for one character: false for control
      characters, for separators other than the ASCII space, and for the
      format and private-use characters listed here; true otherwise. */
  predicate IsPrintable(c: char)
    ensures IsPrintable(c) ==> ' ' <= c && c != '\U{7F}' && (c == ' ' || !IsSpace(c))
  {
    && !(c < ' ')
    && !('\U{7F}' <= c <= '\U{9F}')
    && (c == ' ' || !IsSpace(c))
    && c != '\U{AD}'
    && !('\U{200B}' <= c <= '\U{200F}')
    && !('\U{202A}' <= c <= '\U{202E}')
    && !('\U{2060}' <= c <= '\U{206F}')
    && c != '\U{FEFF}'
    && !('\U{E000}' <= c <= '\U{F8FF}')
  }
}
