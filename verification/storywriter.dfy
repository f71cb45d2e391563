/** The story editor's in-memory state machine: a text buffer with a cursor,
    and a left panel that can be shown or hidden, focused, and navigated.
    `Next` specifies what one key does to the state; the class
    `StoryWriterUI` holds the state in fields and updates them in place. */
module StoryWriter {
  import opened Keys
  import Text
  import Panel

  /** The editor's mutable fields at one instant. */
  datatype Editor = Editor(
    content: string,   // the text buffer
    cursor: int,       // offset of the cursor in the buffer
    expanded: bool,    // the left panel is shown
    panelWidth: int,   // the left panel's width in columns
    selection: int,    // index of the selected panel line
    focused: bool,     // the panel, not the buffer, has the focus
    items: seq<int>)   // indices of the selectable panel lines, as last drawn

  /** The selectable panel indices a terminal `height` rows tall offers:
      those of "New Story" and "Settings" when the panel shows them
      (Panel.PanelSelectable proves that drawing computes exactly these). */
  function PanelItems(height: int): seq<int>
  {
    if height > 11 then [height - 5, height - 4] else []
  }

  /** What holds of the fields between key presses: the cursor lies within
      the buffer, the panel width is the formula's, and the selectable items
      are either not yet drawn or those of the panel for this height. */
  predicate Inv(e: Editor, width: int, height: int)
  {
    && 0 <= e.cursor <= |e.content|
    && e.panelWidth == Panel.PanelWidth(width)
    && (e.items == [] || e.items == PanelItems(height))
  }

  /** The state a new editor starts in: empty buffer, panel shown, nothing
      selectable drawn yet. */
  function Initial(width: int): (e: Editor)
    ensures forall height :: Inv(e, width, height)
    ensures e.content == "" && e.cursor == 0 && e.expanded && !e.focused
  {
    Editor("", 0, true, Panel.PanelWidth(width), 0, false, [])
  }

  /** Python's `xs.index(x)`: the first position holding `x`. */
  function IndexOf(xs: seq<int>, x: int): (i: int)
    requires x in xs
    ensures 0 <= i < |xs| && xs[i] == x
    ensures forall j :: 0 <= j < i ==> xs[j] != x
  {
    if xs[0] == x then 0 else 1 + IndexOf(xs[1..], x)
  }

  /** The position in `items` that panel navigation starts from: that of the
      selection, or 0 when the selection is not an item. */
  function CurrentIndex(e: Editor): (i: int)
    requires |e.items| > 0
    ensures 0 <= i < |e.items|
    ensures e.selection in e.items ==> e.items[i] == e.selection
    ensures e.selection !in e.items ==> i == 0
  {
    if e.selection in e.items then IndexOf(e.items, e.selection) else 0
  }

  /** `text` with `s` inserted at offset `at`. */
  function InsertAt(text: string, at: int, s: string): (r: string)
    requires 0 <= at <= |text|
    ensures |r| == |text| + |s|
    ensures r[..at] == text[..at] && r[at..at + |s|] == s && r[at + |s|..] == text[at..]
  {
    text[..at] + s + text[at..]
  }

  /** `text` without the character just before offset `at`. */
  function DeleteBefore(text: string, at: int): (r: string)
    requires 0 < at <= |text|
    ensures |r| == |text| - 1
    ensures r[..at - 1] == text[..at - 1] && r[at - 1..] == text[at..]
  {
    text[..at - 1] + text[at..]
  }

  /** The state after handling one key, for a terminal `width` columns wide
      and `height` rows tall. */
  function Next(e: Editor, key: Key, width: int, height: int): (r: Editor)
    requires Inv(e, width, height)
    ensures Inv(r, width, height)
  {
    match key
    case CtrlQ => e
    case CtrlB =>
      e.(expanded := !e.expanded, panelWidth := Panel.PanelWidth(width), focused := false)
    case Backspace =>
      if e.cursor > 0 then e.(content := DeleteBefore(e.content, e.cursor), cursor := e.cursor - 1)
      else e
    case Enter =>
      if e.expanded && e.focused && e.selection in e.items then
        var selected := Panel.PanelLines(height - 3)[e.selection];
        if selected == "New Story" then e.(content := "", cursor := 0, focused := false)
        else e.(focused := false)
      else
        e.(content := InsertAt(e.content, e.cursor, "\n"), cursor := e.cursor + 1)
    case Up =>
      if e.expanded && |e.items| > 0 then
        var i := CurrentIndex(e);
        e.(focused := true, selection := if i > 0 then e.items[i - 1] else e.selection)
      else e
    case Down =>
      if e.expanded && |e.items| > 0 then
        var i := CurrentIndex(e);
        e.(focused := true, selection := if i < |e.items| - 1 then e.items[i + 1] else e.selection)
      else e
    case Left =>
      if e.cursor > 0 then e.(cursor := e.cursor - 1) else e
    case Right =>
      if e.cursor < |e.content| then e.(cursor := e.cursor + 1) else e
    case Char(c) =>
      if Text.IsPrintable(c) then
        e.(content := InsertAt(e.content, e.cursor, [c]), cursor := e.cursor + 1, focused := false)
      else e
    case Tab => e
    case CtrlC => e
  }

  /** The state after the left panel is drawn: when it is shown, the
      selectable items are recomputed (they are PanelItems, by
      Panel.PanelSelectable) and, unless the panel has the focus, the first
      of them is selected. */
  function Drawn(e: Editor, height: int): (r: Editor)
    ensures r.content == e.content && r.cursor == e.cursor
    ensures r.expanded == e.expanded && r.focused == e.focused && r.panelWidth == e.panelWidth
    ensures e.expanded ==> r.items == PanelItems(height)
    ensures e.expanded && !e.focused && height > 11 ==> r.selection == height - 5
    ensures e.focused || height <= 11 ==> r.selection == e.selection
    ensures !e.expanded ==> r == e
  {
    if !e.expanded then e
    else
      var items := PanelItems(height);
      e.(items := items, selection := if |items| > 0 && !e.focused then items[0] else e.selection)
  }

  /** The editor box's first screen column: right of the panel when it is
      shown, the screen's first column otherwise. */
  function ContentStart(e: Editor): int
  {
    if e.expanded then e.panelWidth + 2 else 1
  }

  /** The buffer's lines as the editor box shows them, top to bottom: the
      first `height - 3` lines of the buffer (the box is `height - 1` rows
      tall, less its border), each cut to the box's inner width. */
  function VisibleLines(e: Editor, width: int, height: int): (shown: seq<string>)
    ensures var lines := Text.Split(e.content);
      && |shown| == (if height - 3 < 0 then 0 else if |lines| < height - 3 then |lines| else height - 3)
      && |shown| <= |lines|
    ensures forall i :: 0 <= i < |shown| ==>
      |shown[i]| <= (if width - ContentStart(e) - 2 > 0 then width - ContentStart(e) - 2 else 0)
    ensures forall i :: 0 <= i < |shown| && |Text.Split(e.content)[i]| <= width - ContentStart(e) - 2 ==>
      shown[i] == Text.Split(e.content)[i]
    ensures forall i :: 0 <= i < |shown| ==>
      shown[i] == Text.Truncate(Text.Split(e.content)[i], width - ContentStart(e))
  {
    var lines := Text.Split(e.content);
    var contentWidth := width - ContentStart(e);
    var count := if height - 3 < 0 then 0 else if |lines| < height - 3 then |lines| else height - 3;
    seq(count, i requires 0 <= i < count => Text.Truncate(lines[i], contentWidth))
  }

  /** One turn of the main loop: the screen is rendered (which redraws the
      panel) and then one key is handled. The flag is false when the loop
      stops. */
  function Turn(e: Editor, key: Key, width: int, height: int): (r: (Editor, bool))
    requires Inv(e, width, height)
    ensures Inv(r.0, width, height)
    ensures r.1 <==> key != CtrlQ
  {
    (Next(Drawn(e, height), key, width, height), key != CtrlQ)
  }

  /** The main loop fed the keys `keys` in order: it stops after the quit
      key, ignoring whatever follows it. */
  function Run(e: Editor, keys: seq<Key>, width: int, height: int): (r: Editor)
    requires Inv(e, width, height)
    ensures Inv(r, width, height)
    decreases |keys|
  {
    if |keys| == 0 then e
    else
      var (e', running) := Turn(e, keys[0], width, height);
      if running then Run(e', keys[1..], width, height) else e'
  }

  /** The panel drawing's computation of the selectable items: build the
      lines for the rows inside the panel's border (the panel is `height - 1`
      rows tall) and collect the indices of the selectable ones. */
  method DrawPanelItems(height: int) returns (items: seq<int>)
    ensures items == PanelItems(height)
  {
    var panelHeight := height - 1;
    var lines := Panel.BuildPanelLines(panelHeight - 2);
    items := Panel.CollectSelectable(lines);
    Panel.PanelSelectable(height);
  }

  /** The editor object: the fields of the source's UI class, a terminal
      size fixed at construction, and the key handler, the panel drawing and
      the cursor placement that read and update them. */
  class StoryWriterUI {
    const width: int
    const height: int
    var leftPanelExpanded: bool
    var leftPanelWidth: int
    var mainContent: string
    var cursorPos: int
    var panelSelection: int
    var panelFocused: bool
    var selectableItems: seq<int>

    ghost function State(): Editor
      reads this
    {
      Editor(mainContent, cursorPos, leftPanelExpanded, leftPanelWidth,
             panelSelection, panelFocused, selectableItems)
    }

    ghost predicate Valid()
      reads this
    {
      Inv(State(), width, height)
    }

    /** `width` and `height` are the terminal size, read once. */
    constructor (width: int, height: int)
      ensures this.width == width && this.height == height
      ensures State() == Initial(width)
      ensures Valid()
    {
      this.width, this.height := width, height;
      leftPanelExpanded := true;
      leftPanelWidth := Panel.PanelWidth(width);
      mainContent := "";
      cursorPos := 0;
      panelSelection := 0;
      panelFocused := false;
      selectableItems := [];
    }

    /** Handles one key; returns false exactly for the quit key. Each
        branch of the source's handler is one of the methods below. */
    method HandleInput(key: Key) returns (running: bool)
      requires Valid()
      modifies this
      ensures Valid()
      ensures running <==> key != CtrlQ
      ensures State() == Next(old(State()), key, width, height)
    {
      match key {
        case CtrlQ => return false;
        case CtrlB => TogglePanel();
        case Backspace => DeleteBackward();
        case Enter => PressEnter();
        case Up => SelectPrevious();
        case Down => SelectNext();
        case Left => MoveLeft();
        case Right => MoveRight();
        case Char(c) => TypeChar(c);
        case Tab =>
        case CtrlC =>
      }
      running := true;
    }

    /** CTRL_B: show or hide the panel, recompute its width, take the focus
        off it. */
    method TogglePanel()
      requires Valid()
      modifies this
      ensures Valid()
      ensures State() == Next(old(State()), CtrlB, width, height)
    {
      leftPanelExpanded := !leftPanelExpanded;
      leftPanelWidth := Panel.PanelWidth(width);
      panelFocused := false;
    }

    /** BACKSPACE: delete the character before the cursor, if there is one. */
    method DeleteBackward()
      requires Valid()
      modifies this
      ensures Valid()
      ensures State() == Next(old(State()), Backspace, width, height)
    {
      if cursorPos > 0 {
        mainContent := DeleteBefore(mainContent, cursorPos);
        cursorPos := cursorPos - 1;
      }
    }

    /** ENTER: activate the selected panel entry when the panel is shown,
        focused and its selection is an item; otherwise break the line at
        the cursor. */
    method PressEnter()
      requires Valid()
      modifies this
      ensures Valid()
      ensures State() == Next(old(State()), Enter, width, height)
    {
      if leftPanelExpanded && panelFocused && panelSelection in selectableItems {
        // the handler rebuilds the panel's lines to find the selected one
        var lines := Panel.BuildPanelLines(height - 3);
        var selected := lines[panelSelection];
        if selected == "New Story" {
          mainContent := "";
          cursorPos := 0;
        }
        panelFocused := false;
      } else {
        mainContent := InsertAt(mainContent, cursorPos, "\n");
        cursorPos := cursorPos + 1;
      }
    }

    /** UP: when the panel is shown and has items, focus it and select the
        item before the current one. */
    method SelectPrevious()
      requires Valid()
      modifies this
      ensures Valid()
      ensures State() == Next(old(State()), Up, width, height)
    {
      if leftPanelExpanded && |selectableItems| > 0 {
        panelFocused := true;
        var current := if panelSelection in selectableItems
          then IndexOf(selectableItems, panelSelection) else 0;
        if current > 0 {
          panelSelection := selectableItems[current - 1];
        }
      }
    }

    /** DOWN: when the panel is shown and has items, focus it and select the
        item after the current one. */
    method SelectNext()
      requires Valid()
      modifies this
      ensures Valid()
      ensures State() == Next(old(State()), Down, width, height)
    {
      if leftPanelExpanded && |selectableItems| > 0 {
        panelFocused := true;
        var current := if panelSelection in selectableItems
          then IndexOf(selectableItems, panelSelection) else 0;
        if current < |selectableItems| - 1 {
          panelSelection := selectableItems[current + 1];
        }
      }
    }

    /** LEFT: move the cursor back one character, stopping at the start. */
    method MoveLeft()
      requires Valid()
      modifies this
      ensures Valid()
      ensures State() == Next(old(State()), Left, width, height)
    {
      if cursorPos > 0 {
        cursorPos := cursorPos - 1;
      }
    }

    /** RIGHT: move the cursor forward one character, stopping at the end. */
    method MoveRight()
      requires Valid()
      modifies this
      ensures Valid()
      ensures State() == Next(old(State()), Right, width, height)
    {
      if cursorPos < |mainContent| {
        cursorPos := cursorPos + 1;
      }
    }

    /** A character key: insert it at the cursor when it is printable and
        give the focus back to the buffer. */
    method TypeChar(c: char)
      requires Valid()
      modifies this
      ensures Valid()
      ensures State() == Next(old(State()), Char(c), width, height)
    {
      if Text.IsPrintable(c) {
        mainContent := InsertAt(mainContent, cursorPos, [c]);
        cursorPos := cursorPos + 1;
        panelFocused := false;
      }
    }

    /** Draws the left panel when it is shown: rebuilds its lines, records
      which of them are selectable and, unless the panel has the focus,
      selects the first. */
    method DrawLeftPanel()
      requires Valid()
      modifies this
      ensures Valid()
      ensures State() == Drawn(old(State()), height)
    {
      if !leftPanelExpanded {
        return;
      }
      selectableItems := DrawPanelItems(height);
      if leftPanelExpanded && |selectableItems| > 0 && !panelFocused {
        panelSelection := selectableItems[0];
      }
    }

    /** One turn of the main loop: render, which draws the panel, then
        handle one key. */
    method RenderAndHandle(key: Key) returns (running: bool)
      requires Valid()
      modifies this
      ensures Valid()
      ensures (State(), running) == Turn(old(State()), key, width, height)
    {
      DrawLeftPanel();
      running := HandleInput(key);
    }

    /** The 1-based screen position of the cursor: row 2 plus the number of
        newlines before the cursor, and the editor's first text column plus
        the length of the cursor's line up to the cursor. */
    method CursorScreenPosition() returns (x: int, y: int)
      requires Valid()
      ensures y == 2 + Text.NewlineCount(mainContent[..cursorPos])
      ensures Text.IsLastLineLength(mainContent[..cursorPos],
                                    x - (if leftPanelExpanded then leftPanelWidth + 3 else 2))
    {
      x := if leftPanelExpanded then leftPanelWidth + 3 else 2;
      var rowCol := Text.CursorRowCol(mainContent[..cursorPos]);
      y := 2 + rowCol.0;
      x := x + rowCol.1;
    }
  }
}
