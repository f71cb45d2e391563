/** The left panel: its width, the list of lines it shows and which of those
    lines can be selected with UP/DOWN and activated with ENTER. */
module Panel {
  import Text

  /** `max(20, width // 4)`: a quarter of the terminal width, at least 20
      columns. Python's `//` floors; Dafny's `/` is Euclidean, and the two
      agree for the positive divisor 4. */
  function PanelWidth(width: int): (w: int)
    ensures w >= 20
    ensures width < 4 * w + 4
    ensures w == 20 || 4 * w <= width
  {
    if 20 >= width / 4 then 20 else width / 4
  }

  /** The fixed lines at the top of the panel. */
  const Header: seq<string> :=
    ["Recent Stories:", "", "• Adventure Tale", "• Mystery Story", "• Sci-Fi Novel"]

  function Blanks(n: nat): (b: seq<string>)
    ensures |b| == n && forall i :: 0 <= i < n ==> b[i] == ""
  {
    seq(n, _ => "")
  }

  /** The panel's lines for `available` rows inside its border: the header,
      then, when the header is shorter than `available - 3`, blank lines
      up to `available - 3` rows, a blank line, "New Story" and "Settings". */
  function PanelLines(available: int): (lines: seq<string>)
    ensures |lines| == if available > 8 then available else |Header|
  {
    if |Header| < available - 3 then
      Header + Blanks(available - 3 - |Header|) + [""] + ["New Story"] + ["Settings"]
    else Header
  }

  /** Python's `line.strip() == ""`: every character is white space. */
  predicate IsBlank(line: string) {
    forall i :: 0 <= i < |line| ==> Text.IsSpace(line[i])
  }

  /** A panel line can be selected when it is not blank, is not the
      "Recent Stories:" heading and is not a "•" story bullet. */
  predicate IsSelectable(line: string)
    ensures IsSelectable(line) ==> |line| > 0 && line[0] != '•'
  {
    && !IsBlank(line)
    && !("Recent Stories:" <= line)
    && !("•" <= line)
  }

  /** The indices of the selectable lines, in order (Python's loop over
      `enumerate(content_lines)` appending each selectable index). */
  function SelectableIn(lines: seq<string>): (items: seq<int>)
    ensures |items| <= |lines|
  {
    if |lines| == 0 then []
    else
      var n := |lines| - 1;
      SelectableIn(lines[..n]) + (if IsSelectable(lines[n]) then [n] else [])
  }

  /** SelectableIn holds exactly the indices of the selectable lines, in
      strictly increasing order. */
  lemma {:induction false} SelectableInExact(lines: seq<string>)
    ensures forall k :: 0 <= k < |SelectableIn(lines)| ==>
      0 <= SelectableIn(lines)[k] < |lines| && IsSelectable(lines[SelectableIn(lines)[k]])
    ensures forall i :: 0 <= i < |lines| && IsSelectable(lines[i]) ==> i in SelectableIn(lines)
    ensures forall k, l :: 0 <= k < l < |SelectableIn(lines)| ==>
      SelectableIn(lines)[k] < SelectableIn(lines)[l]
  {
    if |lines| > 0 {
      var n := |lines| - 1;
      var init := lines[..n];
      SelectableInExact(init);
      var prev := SelectableIn(init);
      var items := SelectableIn(lines);
      assert items == prev + (if IsSelectable(lines[n]) then [n] else []);
      assert |items| >= |prev|;
      forall k | 0 <= k < |prev|
        ensures 0 <= prev[k] < n && items[k] == prev[k]
      {
      }
      forall k | 0 <= k < |prev|
        ensures IsSelectable(lines[prev[k]])
      {
        assert lines[prev[k]] == init[prev[k]];
      }
      forall i | 0 <= i < |lines| && IsSelectable(lines[i])
        ensures i in items
      {
        if i < n {
          assert init[i] == lines[i];
        }
      }
    }
  }

  /** Builds the panel's lines with the source's padding loop. */
  method BuildPanelLines(available: int) returns (lines: seq<string>)
    ensures lines == PanelLines(available)
  {
    lines := Header;
    if |lines| < available - 3 {
      while |lines| < available - 3
        invariant |Header| <= |lines| <= available - 3
        invariant lines == Header + Blanks(|lines| - |Header|)
        decreases available - 3 - |lines|
      {
        lines := lines + [""];
      }
      lines := lines + [""];
      lines := lines + ["New Story"];
      lines := lines + ["Settings"];
    }
  }

  /** Collects the indices of the selectable lines in one pass. */
  method CollectSelectable(lines: seq<string>) returns (items: seq<int>)
    ensures items == SelectableIn(lines)
  {
    items := [];
    for i := 0 to |lines|
      invariant items == SelectableIn(lines[..i])
    {
      assert lines[..i + 1][..i] == lines[..i];
      if IsSelectable(lines[i]) {
        items := items + [i];
      }
    }
    assert lines[..|lines|] == lines;
  }

  /** Lines none of which is selectable contribute no index. */
  lemma NoneSelectable(lines: seq<string>)
    requires forall i :: 0 <= i < |lines| ==> !IsSelectable(lines[i])
    ensures SelectableIn(lines) == []
  {
  }

  /** The shape of the panel for a terminal `height` rows tall (the panel has
      `height - 3` rows inside its border): above 11 rows it fills those rows
      and ends with a blank line, "New Story" and "Settings"; otherwise it is
      the five header lines alone. */
  lemma PanelShape(height: int)
    ensures var lines := PanelLines(height - 3);
      && (height > 11 ==> |lines| == height - 3
                          && lines[height - 6..] == ["", "New Story", "Settings"])
      && (height <= 11 ==> lines == Header)
  {
  }

  /** Appending one line adds its index exactly when it is selectable. */
  lemma SelectableSnoc(lines: seq<string>, line: string)
    ensures SelectableIn(lines + [line])
         == SelectableIn(lines) + (if IsSelectable(line) then [|lines|] else [])
  {
  }

  /** Appending a line that is not selectable adds nothing (the skip case
      of `SelectableSnoc`). */
  lemma SnocSkip(lines: seq<string>, line: string)
    requires !IsSelectable(line)
    ensures SelectableIn(lines + [line]) == SelectableIn(lines)
  {
    SelectableSnoc(lines, line);
  }

  /** Appending a selectable line adds its index (the add case of
      `SelectableSnoc`). */
  lemma SnocAdd(lines: seq<string>, line: string)
    requires IsSelectable(line)
    ensures SelectableIn(lines + [line]) == SelectableIn(lines) + [|lines|]
  {
    SelectableSnoc(lines, line);
  }

  /** None of the header lines is selectable. */
  lemma HeaderNotSelectable()
    ensures forall i :: 0 <= i < |Header| ==> !IsSelectable(Header[i])
  {
  }

  /** A blank line is not selectable; the two entries the panel adds at its
      bottom are. */
  lemma BottomEntries()
    ensures !IsSelectable("") && IsSelectable("New Story") && IsSelectable("Settings")
  {
    assert "New Story"[0] == 'N' && !Text.IsSpace('N');
    assert "Settings"[0] == 'S' && !Text.IsSpace('S');
  }

  /** The header followed by blank padding holds nothing selectable. */
  lemma PaddingNotSelectable(n: nat)
    ensures SelectableIn(Header + Blanks(n)) == []
  {
    var pad := Header + Blanks(n);
    HeaderNotSelectable();
    forall i | 0 <= i < |pad|
      ensures !IsSelectable(pad[i])
    {
      if i < |Header| {
        assert pad[i] == Header[i];
      } else {
        assert pad[i] == Blanks(n)[i - |Header|];
        BottomEntries();
      }
    }
    NoneSelectable(pad);
  }

  /** Three lines appended to lines with nothing selectable: the index of
      each selectable one is added, in order. */
  lemma SelectableAfterPadding(pad: seq<string>, a: string, b: string, c: string)
    requires SelectableIn(pad) == []
    requires !IsSelectable(a) && IsSelectable(b) && IsSelectable(c)
    ensures SelectableIn(pad + [a] + [b] + [c]) == [|pad| + 1, |pad| + 2]
  {
    SnocSkip(pad, a);
    SnocAdd(pad + [a], b);
    SnocAdd(pad + [a] + [b], c);
  }

  /** A tall panel's padding holds nothing selectable, and its last three
      lines add the indices of "New Story" and "Settings". */
  lemma TallPanelSelectable(height: int)
    requires height > 11
    ensures SelectableIn(PanelLines(height - 3)) == [height - 5, height - 4]
  {
    PaddingNotSelectable(height - 11);
    BottomEntries();
    SelectableAfterPadding(Header + Blanks(height - 11), "", "New Story", "Settings");
  }

  /** Only "New Story" and "Settings" are selectable: at indices
      `height - 5` and `height - 4` when the panel is tall enough to show
      them, and nothing otherwise. */
  lemma PanelSelectable(height: int)
    ensures SelectableIn(PanelLines(height - 3)) == if height > 11 then [height - 5, height - 4] else []
  {
    if height > 11 {
      TallPanelSelectable(height);
    } else {
      HeaderNotSelectable();
      NoneSelectable(Header);
    }
  }
}
