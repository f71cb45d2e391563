/** What the key handler promises, stated over `StoryWriter.Next` and proved
    for every state that satisfies the editor's invariant. */
module StoryWriterProperties {
  import opened Keys
  import Text
  import Panel
  import opened StoryWriter

  /** The text before the cursor. */
  function Before(e: Editor): string
    requires 0 <= e.cursor <= |e.content|
  {
    e.content[..e.cursor]
  }

  /** The text from the cursor on. */
  function After(e: Editor): string
    requires 0 <= e.cursor <= |e.content|
  {
    e.content[e.cursor..]
  }

  /** The panel's fields (shown, width, selection, items) are the same in
      `e` and `r`; the buffer, the cursor and the focus may differ. */
  predicate PanelUnchanged(e: Editor, r: Editor)
  {
    && r.expanded == e.expanded && r.panelWidth == e.panelWidth
    && r.selection == e.selection && r.items == e.items
  }

  /** A printable character goes in just before the cursor, the cursor moves
      past it, and the buffer takes the focus back from the panel. */
  lemma TypePrintable(e: Editor, c: char, width: int, height: int)
    requires Inv(e, width, height) && Text.IsPrintable(c)
    ensures Before(Next(e, Char(c), width, height)) == Before(e) + [c]
    ensures After(Next(e, Char(c), width, height)) == After(e)
    ensures PanelUnchanged(e, Next(e, Char(c), width, height))
    ensures !Next(e, Char(c), width, height).focused
  {
  }

  /** BACKSPACE removes the character just before the cursor and leaves the
      text after it alone; at the start of the buffer it does nothing. */
  lemma BackspaceDeletes(e: Editor, width: int, height: int)
    requires Inv(e, width, height)
    ensures e.cursor == 0 ==> Next(e, Backspace, width, height) == e
    ensures e.cursor > 0 ==>
      && Before(e) == Before(Next(e, Backspace, width, height)) + [e.content[e.cursor - 1]]
      && After(Next(e, Backspace, width, height)) == After(e)
    ensures PanelUnchanged(e, Next(e, Backspace, width, height))
    ensures Next(e, Backspace, width, height).focused == e.focused
  {
  }

  /** Typing a printable character and then BACKSPACE gives back the state,
      except that the focus is on the buffer. */
  lemma TypeThenBackspace(e: Editor, c: char, width: int, height: int)
    requires Inv(e, width, height) && Text.IsPrintable(c)
    ensures Next(Next(e, Char(c), width, height), Backspace, width, height) == e.(focused := false)
  {
  }

  /** ENTER while the buffer has the focus breaks the line at the cursor:
      the cursor moves to column 0 of the next screen row, and the panel and
      the focus stay as they were. */
  lemma EnterBreaksLine(e: Editor, width: int, height: int)
    requires Inv(e, width, height)
    requires !(e.expanded && e.focused && e.selection in e.items)
    ensures Before(Next(e, Enter, width, height)) == Before(e) + ['\n']
    ensures After(Next(e, Enter, width, height)) == After(e)
    ensures Text.CursorRowCol(Before(Next(e, Enter, width, height)))
         == (Text.CursorRowCol(Before(e)).0 + 1, 0)
    ensures PanelUnchanged(e, Next(e, Enter, width, height))
    ensures Next(e, Enter, width, height).focused == e.focused
  {
    var r := Next(e, Enter, width, height);
    assert r.content == e.content[..e.cursor] + "\n" + e.content[e.cursor..];
    assert r.content[..r.cursor] == e.content[..e.cursor] + ['\n'];
    Text.CursorAfterAppend(Before(e), '\n');
  }

  /** A typed character moves the cursor one column right on its row. */
  lemma TypeMovesCursorRight(e: Editor, c: char, width: int, height: int)
    requires Inv(e, width, height) && Text.IsPrintable(c)
    ensures Text.CursorRowCol(Before(Next(e, Char(c), width, height)))
         == (Text.CursorRowCol(Before(e)).0, Text.CursorRowCol(Before(e)).1 + 1)
  {
    TypePrintable(e, c, width, height);
    Text.CursorAfterAppend(Before(e), c);
  }

  /** LEFT and RIGHT move the cursor by one within the buffer and change
      nothing else; each undoes the other away from the buffer's ends. */
  lemma HorizontalMoves(e: Editor, width: int, height: int)
    requires Inv(e, width, height)
    ensures Next(e, Left, width, height) == e.(cursor := if e.cursor > 0 then e.cursor - 1 else 0)
    ensures Next(e, Right, width, height)
         == e.(cursor := if e.cursor < |e.content| then e.cursor + 1 else |e.content|)
    ensures e.cursor > 0 ==> Next(Next(e, Left, width, height), Right, width, height) == e
    ensures e.cursor < |e.content| ==> Next(Next(e, Right, width, height), Left, width, height) == e
  {
  }

  /** CTRL_B shows or hides the panel and gives the focus to the buffer,
      changing nothing else (the width it recomputes is the one the editor
      already has); twice, it leaves the panel as it was. */
  lemma ToggleTwice(e: Editor, width: int, height: int)
    requires Inv(e, width, height)
    ensures Next(e, CtrlB, width, height) == e.(expanded := !e.expanded, focused := false)
    ensures Next(Next(e, CtrlB, width, height), CtrlB, width, height) == e.(focused := false)
  {
  }

  /** Keys that change nothing: the quit key (the loop stops instead), TAB,
      CTRL_C, a character that is not printable, and UP or DOWN when the
      panel is hidden or offers no item. */
  lemma IgnoredKeys(e: Editor, c: char, width: int, height: int)
    requires Inv(e, width, height)
    ensures Next(e, CtrlQ, width, height) == e
    ensures Next(e, Tab, width, height) == e
    ensures Next(e, CtrlC, width, height) == e
    ensures !Text.IsPrintable(c) ==> Next(e, Char(c), width, height) == e
    ensures !e.expanded || e.items == [] ==>
      Next(e, Up, width, height) == e && Next(e, Down, width, height) == e
  {
  }

  /** A non-empty item list is the tall panel's: "New Story" and "Settings". */
  lemma ItemsOfTallPanel(e: Editor, width: int, height: int)
    requires Inv(e, width, height) && e.items != []
    ensures height > 11 && e.items == [height - 5, height - 4]
  {
  }

  /** DOWN on the shown panel focuses it and selects the item after the
      current one: "Settings", the last item, whatever was selected. */
  lemma DownSelectsNext(e: Editor, width: int, height: int)
    requires Inv(e, width, height) && e.expanded && e.items != []
    ensures Next(e, Down, width, height).focused
    ensures Next(e, Down, width, height).selection == e.items[|e.items| - 1]
    ensures Panel.PanelLines(height - 3)[Next(e, Down, width, height).selection] == "Settings"
    ensures Next(e, Down, width, height) == e.(focused := true, selection := height - 4)
  {
  }

  /** UP on the shown panel focuses it; from an item it selects the item
      before it ("New Story", the first item); from a selection that is not
      an item it keeps the selection. */
  lemma UpSelectsPrevious(e: Editor, width: int, height: int)
    requires Inv(e, width, height) && e.expanded && e.items != []
    ensures Next(e, Up, width, height).focused
    ensures e.selection in e.items ==> Next(e, Up, width, height).selection == e.items[0]
    ensures e.selection !in e.items ==> Next(e, Up, width, height).selection == e.selection
    ensures e.selection in e.items ==>
      Panel.PanelLines(height - 3)[Next(e, Up, width, height).selection] == "New Story"
    ensures PanelUnchanged(e.(selection := Next(e, Up, width, height).selection),
                           Next(e, Up, width, height))
    ensures Next(e, Up, width, height).content == e.content
    ensures Next(e, Up, width, height).cursor == e.cursor
  {
  }

  /** UP then DOWN returns to an item other than the first. */
  lemma UpThenDown(e: Editor, width: int, height: int)
    requires Inv(e, width, height) && e.expanded && e.items != []
    requires e.selection in e.items && e.selection != e.items[0]
    ensures Next(Next(e, Up, width, height), Down, width, height) == e.(focused := true)
  {
  }

  /** ENTER on a focused panel activates the selected line, which is always
      "New Story" or "Settings": the first empties the buffer, the second
      does nothing; either way the focus returns to the buffer. */
  lemma EnterOnPanel(e: Editor, width: int, height: int)
    requires Inv(e, width, height) && e.expanded && e.focused && e.selection in e.items
    ensures Panel.PanelLines(height - 3)[e.selection] == "New Story"
        || Panel.PanelLines(height - 3)[e.selection] == "Settings"
    ensures Panel.PanelLines(height - 3)[e.selection] == "New Story" ==>
      Next(e, Enter, width, height) == e.(content := "", cursor := 0, focused := false)
    ensures Panel.PanelLines(height - 3)[e.selection] == "Settings" ==>
      Next(e, Enter, width, height) == e.(focused := false)
  {
  }

  /** Drawing the shown panel of a tall enough terminal records its two
      items and, unless the panel has the focus, selects "New Story";
      drawing again changes nothing more. */
  lemma DrawSelectsNewStory(e: Editor, width: int, height: int)
    requires Inv(e, width, height) && e.expanded && height > 11
    ensures Drawn(e, height).items == [height - 5, height - 4]
    ensures !e.focused ==> Panel.PanelLines(height - 3)[Drawn(e, height).selection] == "New Story"
    ensures Drawn(Drawn(e, height), height) == Drawn(e, height)
  {
  }

  /** From a state whose buffer has the focus, UP then ENTER in the main
      loop activates "New Story": the buffer is emptied. */
  lemma UpEnterStartsNewStory(e: Editor, width: int, height: int)
    requires Inv(e, width, height) && e.expanded && !e.focused && height > 11
    ensures Run(e, [Up, Enter], width, height).content == ""
    ensures Run(e, [Up, Enter], width, height).cursor == 0
    ensures !Run(e, [Up, Enter], width, height).focused
  {
  }

  /** From a state whose buffer has the focus, DOWN then ENTER in the main
      loop activates "Settings", which leaves the buffer as it was. */
  lemma DownEnterOpensSettings(e: Editor, width: int, height: int)
    requires Inv(e, width, height) && e.expanded && !e.focused && height > 11
    ensures Run(e, [Down, Enter], width, height).content == e.content
    ensures Run(e, [Down, Enter], width, height).cursor == e.cursor
    ensures Run(e, [Down, Enter], width, height).selection == height - 4
    ensures !Run(e, [Down, Enter], width, height).focused
  {
  }

  /** The keys that never touch the buffer's text. */
  predicate LeavesText(k: Key)
  {
    k.Up? || k.Down? || k.Left? || k.Right? || k.Tab? || k.CtrlC? || k.CtrlB? || k.CtrlQ?
  }

  /** A session of keys none of which edits text leaves the text as it was. */
  lemma {:induction false} RunKeepsText(e: Editor, keys: seq<Key>, width: int, height: int)
    requires Inv(e, width, height)
    requires forall i :: 0 <= i < |keys| ==> LeavesText(keys[i])
    ensures Run(e, keys, width, height).content == e.content
    decreases |keys|
  {
    if |keys| > 0 {
      var e' := Turn(e, keys[0], width, height).0;
      assert e'.content == e.content by {
        assert LeavesText(keys[0]);
      }
      if keys[0] != CtrlQ {
        assert forall i :: 0 <= i < |keys[1..]| ==> keys[1..][i] == keys[i + 1];
        RunKeepsText(e', keys[1..], width, height);
      }
    }
  }

  /** The main loop stops at the first quit key: the keys after it are
      never handled. */
  lemma {:induction false} RunStopsAtQuit(e: Editor, keys: seq<Key>, rest: seq<Key>, width: int, height: int)
    requires Inv(e, width, height)
    requires CtrlQ !in keys
    ensures Run(e, keys + [CtrlQ] + rest, width, height) == Run(e, keys + [CtrlQ], width, height)
    decreases |keys|
  {
    if |keys| == 0 {
      assert ([CtrlQ] + rest)[0] == CtrlQ;
    } else {
      var e' := Turn(e, keys[0], width, height).0;
      assert (keys + [CtrlQ] + rest)[0] == keys[0];
      assert (keys + [CtrlQ])[0] == keys[0];
      assert (keys + [CtrlQ] + rest)[1..] == keys[1..] + [CtrlQ] + rest;
      assert (keys + [CtrlQ])[1..] == keys[1..] + [CtrlQ];
      assert keys[0] != CtrlQ;
      RunStopsAtQuit(e', keys[1..], rest, width, height);
    }
  }
}
