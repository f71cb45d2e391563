# StoryWriter terminal editor — a verified model of its editing core

`storywriter_ui.py` is a single-class terminal story editor. `StoryWriterUI`
holds a text buffer with a cursor and a left panel that can be shown or
hidden with CTRL_B. On a terminal taller than 11 rows the panel offers two
selectable entries, "New Story" and "Settings", which UP/DOWN navigate and
ENTER activates; on a shorter one it offers none. A main loop renders
the screen, reads one key, decodes it into a token and hands it to
`handle_input`, until CTRL_Q.

This project models that core in Dafny:

- `keys.dfy` (module `Keys`): the key tokens and the decoding `get_key` does
  on the characters it reads.
- `text.dfy` (module `Text`):
  - Python's `str.split('\n')` and `'\n'.join`;
  - the cursor's row and column that `render` derives from the text before
    the cursor;
  - Python's slice `s[:k]` with a negative `k`;
  - the ellipsis truncation of a long line in `draw_main_content`;
  - Python's `str.isspace` and `str.isprintable` for one character.
- `panel.dfy` (module `Panel`):
  - the panel width `max(20, width // 4)`;
  - the panel's line list, built by the same padding loop in
    `draw_left_panel` and in the ENTER handler;
  - the indices of its selectable lines.
- `storywriter.dfy` (module `StoryWriter`):
  - the editor's fields as a value `Editor`, and `Next`, the state after one
    key;
  - `Drawn`, the state after the panel is drawn;
  - `Turn` and `Run`, the main loop over a sequence of keys;
  - the class `StoryWriterUI`, whose fields are the source's attributes and
    whose methods update them in place. Each method is proved to produce
    exactly the state the matching function specifies.
- `properties.dfy` (module `StoryWriterProperties`): what the key handler
  promises, proved for every state that satisfies the editor's invariant.
  The invariant says the cursor lies within the buffer, the panel width is
  the formula's, and the selectable items are either not drawn yet (empty)
  or those of the panel.

The terminal size is a pair of parameters, read once at construction.

## Model

| member | source | states |
|---|---|---|
| Keys.DecodeKey | storywriter_ui.py:38-60 | ESC followed by `[A`/`[B`/`[C`/`[D` gives an arrow key, and only that; each named control character gives its token; every other character (and ESC followed by anything else) comes back as itself |
| Keys.KeyChars | storywriter_ui.py:38-60 | the characters a key arrives as; decoding them gives the key back, for every key the decoder can produce |
| Keys.DecodeThenEncode | storywriter_ui.py:38-60 | decoding then re-encoding gives back the first character, and the two following ones exactly when they formed an arrow key |
| Text.NewlineCountZero | storywriter_ui.py:183-184 | a text has no newline exactly when its newline count is zero |
| Text.Split | storywriter_ui.py:152 | `str.split('\n')` gives one piece more than there are newlines, and no piece holds a newline |
| Text.JoinSplit | storywriter_ui.py:152 | joining the pieces of a split with newlines gives the text back |
| Text.SplitJoin | storywriter_ui.py:152 | splitting the join of newline-free pieces gives the pieces back |
| Text.SplitLast | storywriter_ui.py:183-185 | the last piece of a split is the text after the last newline (all the text when there is none) |
| Text.SplitLastNewline | storywriter_ui.py:183-185 | the SplitLast step for a text that starts with a newline |
| Text.SplitLastOnePiece | storywriter_ui.py:183-185 | the SplitLast step for a text without a newline |
| Text.SplitLastLaterPiece | storywriter_ui.py:183-185 | the SplitLast step for a text whose first newline comes after its first character |
| Text.CursorRowCol | storywriter_ui.py:183-185 | the cursor's row is the number of newlines before it; its column is the length of the text between the last of them and the cursor |
| Text.NewlineCountAppend | storywriter_ui.py:183-184 | appending a character adds one newline exactly when it is a newline |
| Text.LastLineLengthUnique | storywriter_ui.py:185 | a text has exactly one last-line length |
| Text.LastLineLengthAppend | storywriter_ui.py:185 | appending a newline starts an empty last line; any other character lengthens it by one |
| Text.CursorAfterAppend | storywriter_ui.py:183-185 | one more newline before the cursor moves it to column 0 of the next row; any other character moves it one column right |
| Text.PyPrefix | storywriter_ui.py:161 | Python's `s[:k]` is a prefix of `s`, of length `k` clamped to the text, with a negative `k` counted from the end |
| Text.TruncateFitsWide | storywriter_ui.py:159-161 | with a box at least 5 columns wide, a long line is cut to exactly the inner width `w - 2`, ending in "...", and a short line is kept |
| Text.TruncateOverflowsNarrow | storywriter_ui.py:159-161 | with a box 4 columns wide, the line "abcdef" becomes "abcde...", wider than the box |
| Text.TruncateAsWritten | storywriter_ui.py:159-161 | the source's truncation: a line that fits is kept; a longer one becomes a prefix of it followed by "..." |
| Text.IsSpace | storywriter_ui.py:122 | the characters Python's `strip()` removes and `isspace` accepts |
| Text.IsPrintable | storywriter_ui.py:262 | Python's `isprintable` for one character; a printable character is never a control character, DEL or a space other than ' ' |
| Text.Truncate | storywriter_ui.py:159-161 | the truncation as intended: never wider than the inner width; a fitting line is kept; it agrees with the source whenever the box is at least 5 wide |
| Panel.PanelWidth | storywriter_ui.py:12 | the panel is at least 20 columns, and a quarter of the terminal width (rounded down) when that is more |
| Panel.Blanks | storywriter_ui.py:111-112 | `n` empty lines |
| Panel.PanelLines | storywriter_ui.py:99-117 | the panel fills all its rows when the header leaves room for the bottom entries, and otherwise holds the five header lines alone |
| Panel.IsBlank | storywriter_ui.py:122 | `line.strip() == ""`: every character is white space |
| Panel.IsSelectable | storywriter_ui.py:122 | a selectable line is non-blank, not the "Recent Stories:" heading and not a "•" bullet; so it is non-empty and does not start with "•" |
| Panel.SelectableIn | storywriter_ui.py:120-123 | the selectable indices in order; never more than there are lines (SelectableInExact states them exactly) |
| Panel.SelectableInExact | storywriter_ui.py:119-123 | the recorded indices are exactly those of the selectable lines, in strictly increasing order |
| Panel.BuildPanelLines | storywriter_ui.py:99-117 | the padding loop builds exactly the panel's lines |
| Panel.CollectSelectable | storywriter_ui.py:119-123 | the loop over the lines collects exactly the selectable indices |
| Panel.NoneSelectable | storywriter_ui.py:119-123 | lines none of which is selectable record no index |
| Panel.PanelShape | storywriter_ui.py:107-117 | above 11 terminal rows the panel has `height - 3` lines ending with "", "New Story" and "Settings"; otherwise it is the header |
| Panel.SelectableSnoc | storywriter_ui.py:121-123 | appending a line adds its index exactly when it is selectable |
| Panel.SnocSkip | storywriter_ui.py:121-123 | appending a line that is not selectable adds nothing (derived from SelectableSnoc) |
| Panel.SnocAdd | storywriter_ui.py:121-123 | appending a selectable line adds its index (derived from SelectableSnoc) |
| Panel.HeaderNotSelectable | storywriter_ui.py:99-105 | none of the header lines (heading, blank line, story bullets) is selectable |
| Panel.BottomEntries | storywriter_ui.py:115-117 | the blank line is not selectable; "New Story" and "Settings" are |
| Panel.PaddingNotSelectable | storywriter_ui.py:109-112 | the header with its blank padding holds nothing selectable |
| Panel.SelectableAfterPadding | storywriter_ui.py:115-123 | after unselectable lines, a blank line and two selectable lines add exactly those two indices |
| Panel.TallPanelSelectable | storywriter_ui.py:107-123 | a tall panel's selectable indices are `height - 5` and `height - 4` |
| Panel.PanelSelectable | storywriter_ui.py:99-123 | only "New Story" and "Settings" are selectable: their two indices when the panel shows them, none otherwise |
| StoryWriter.Inv | storywriter_ui.py:12-17 | the cursor lies within the buffer, the panel width is `max(20, width // 4)`, and the selectable items are empty (not drawn yet) or the panel's |
| StoryWriter.Initial | storywriter_ui.py:8-17 | a new editor has an empty buffer, the cursor at 0, the panel shown and not focused, and satisfies the invariant at every height |
| StoryWriter.IndexOf | storywriter_ui.py:240 | `list.index`: the first position that holds the value |
| StoryWriter.CurrentIndex | storywriter_ui.py:240 | the position navigation starts from is the selection's when it is an item, and 0 otherwise |
| StoryWriter.InsertAt | storywriter_ui.py:234 | inserting keeps the text before the offset, then the insertion, then the rest |
| StoryWriter.DeleteBefore | storywriter_ui.py:202 | deleting removes exactly the character before the offset |
| StoryWriter.Next | storywriter_ui.py:190-269 | every key keeps the invariant: the cursor stays within the buffer, the panel width stays the formula's, the items stay the panel's |
| StoryWriter.Drawn | storywriter_ui.py:87-127 | drawing never changes the buffer, the cursor or the focus; a hidden panel changes nothing; a shown panel records its selectable items; it selects index `height - 5` ("New Story") when unfocused and tall enough, and keeps the selection otherwise |
| StoryWriter.ContentStart | storywriter_ui.py:139-142 | the editor box starts right of the panel when it is shown, at column 1 otherwise |
| StoryWriter.VisibleLines | storywriter_ui.py:137-162 | the editor box shows the first `height - 3` lines of the buffer (fewer if the buffer has fewer), each one the truncation of the buffer line at that index: never wider than the box's inner width, and a line that fits unchanged |
| StoryWriter.Turn | storywriter_ui.py:271-278 | one turn of the loop keeps the invariant and goes on exactly when the key is not CTRL_Q |
| StoryWriter.Run | storywriter_ui.py:271-284 | a whole session of keys keeps the invariant |
| StoryWriter.DrawPanelItems | storywriter_ui.py:92-123 | building the panel's lines and collecting the selectable ones gives the panel's two items, or none |
| StoryWriter.StoryWriterUI.constructor | storywriter_ui.py:8-17 | the fields start in the initial state, which satisfies the invariant |
| StoryWriter.StoryWriterUI.HandleInput | storywriter_ui.py:190-269 | the fields change exactly as `Next` says; the result is false exactly for CTRL_Q |
| StoryWriter.StoryWriterUI.TogglePanel | storywriter_ui.py:194-199 | CTRL_B as `Next` says |
| StoryWriter.StoryWriterUI.DeleteBackward | storywriter_ui.py:200-203 | BACKSPACE as `Next` says |
| StoryWriter.StoryWriterUI.PressEnter | storywriter_ui.py:204-235 | ENTER as `Next` says, the panel's lines rebuilt by the padding loop |
| StoryWriter.StoryWriterUI.SelectPrevious | storywriter_ui.py:236-245 | UP as `Next` says |
| StoryWriter.StoryWriterUI.SelectNext | storywriter_ui.py:246-255 | DOWN as `Next` says |
| StoryWriter.StoryWriterUI.MoveLeft | storywriter_ui.py:256-258 | LEFT as `Next` says |
| StoryWriter.StoryWriterUI.MoveRight | storywriter_ui.py:259-261 | RIGHT as `Next` says |
| StoryWriter.StoryWriterUI.TypeChar | storywriter_ui.py:262-267 | a character key as `Next` says |
| StoryWriter.StoryWriterUI.DrawLeftPanel | storywriter_ui.py:87-127 | the fields change exactly as `Drawn` says |
| StoryWriter.StoryWriterUI.RenderAndHandle | storywriter_ui.py:274-278 | one loop turn changes the fields exactly as `Turn` says |
| StoryWriter.StoryWriterUI.CursorScreenPosition | storywriter_ui.py:176-185 | the cursor's screen row is 2 plus the newlines before it; its column is the editor's first text column plus the length of the cursor's line up to the cursor |
| StoryWriterProperties.TypePrintable | storywriter_ui.py:262-267 | a printable character goes in just before the cursor, the text after the cursor is kept, the panel is untouched and the focus returns to the buffer |
| StoryWriterProperties.BackspaceDeletes | storywriter_ui.py:200-203 | BACKSPACE removes the character before the cursor and keeps the text after it; at offset 0 it changes nothing |
| StoryWriterProperties.TypeThenBackspace | storywriter_ui.py:200-267 | typing a character then BACKSPACE restores the state, with the focus on the buffer |
| StoryWriterProperties.EnterBreaksLine | storywriter_ui.py:233-235 | ENTER on the buffer inserts a newline at the cursor, the cursor goes to column 0 of the next row, and the panel and the focus are left as they were |
| StoryWriterProperties.TypeMovesCursorRight | storywriter_ui.py:262-265 | a typed character keeps the cursor's row and moves it one column right |
| StoryWriterProperties.HorizontalMoves | storywriter_ui.py:256-261 | LEFT/RIGHT move the cursor by one, clamped to the buffer, and change nothing else; each undoes the other away from the ends |
| StoryWriterProperties.ToggleTwice | storywriter_ui.py:194-199 | one CTRL_B flips the panel and clears the panel focus, changing nothing else; twice it restores the state with the focus on the buffer |
| StoryWriterProperties.IgnoredKeys | storywriter_ui.py:190-269 | CTRL_Q, TAB, CTRL_C, non-printable characters, and UP/DOWN with no panel items change nothing |
| StoryWriterProperties.ItemsOfTallPanel | storywriter_ui.py:107-123 | when there are items at all, they are "New Story" and "Settings" of a panel taller than 11 rows |
| StoryWriterProperties.DownSelectsNext | storywriter_ui.py:246-252 | DOWN focuses the panel and selects the last item, "Settings" |
| StoryWriterProperties.UpSelectsPrevious | storywriter_ui.py:236-242 | UP focuses the panel; from an item it selects the first, "New Story"; from a non-item selection it keeps it |
| StoryWriterProperties.UpThenDown | storywriter_ui.py:236-252 | UP then DOWN returns to an item other than the first |
| StoryWriterProperties.EnterOnPanel | storywriter_ui.py:204-232 | ENTER on a focused panel item finds "New Story" or "Settings"; the first empties the buffer, the second changes nothing but the focus |
| StoryWriterProperties.DrawSelectsNewStory | storywriter_ui.py:119-127 | drawing a tall panel records its two items, selects "New Story" unless focused, and is idempotent |
| StoryWriterProperties.UpEnterStartsNewStory | storywriter_ui.py:271-278 | in the main loop, UP then ENTER from the buffer empties the buffer |
| StoryWriterProperties.DownEnterOpensSettings | storywriter_ui.py:271-278 | in the main loop, DOWN then ENTER from the buffer selects "Settings" and leaves the text and cursor as they were |
| StoryWriterProperties.RunKeepsText | storywriter_ui.py:271-278 | a session of navigation, toggle and ignored keys leaves the text unchanged |
| StoryWriterProperties.RunStopsAtQuit | storywriter_ui.py:274-278 | the loop stops at the first CTRL_Q: keys after it are never handled |

## Left out

- Raw terminal mode (`enable_raw_mode`, `disable_raw_mode`, termios) and
  `sys.stdin.read` are I/O. A key arrives as the characters `DecodeKey`
  takes.
- An empty read at end of input makes `get_key` return the empty string.
  `handle_input` ignores it, because its length is not 1. The `Key` type has
  no such token.
- Painting with ANSI escape sequences is left out: `clear_screen`,
  `draw_border`, the highlighted panel lines, the bottom bar, and the
  placement of the visible lines in `draw_main_content`. The computations
  those paint from are modelled: line splitting, truncation, panel lines,
  cursor position.
- `shutil.get_terminal_size` is I/O; the width and height are parameters,
  fixed at construction as in the source.
- `KeyboardInterrupt` and the farewell message in `run` are not modelled.
- `scroll_offset` is never changed by the source (it stays 0), so it is not
  a field of the model.
- StoryWriter.VisibleLines: cuts long lines with the corrected `Text.Truncate`, not the source's
  truncation. The two agree whenever the editor box is at least 5 columns
  wide (see Findings).
- The "Settings" entry is a TODO in the source and does nothing; the model
  does nothing for it either.
- Text.IsPrintable: approximates Python's `str.isprintable` for one
  character. It rejects control characters, C1 controls, separators other
  than the ASCII space, soft hyphen, the common format characters and the
  private-use area of the Basic Multilingual Plane. It does not tabulate
  the full Unicode categories, such as unassigned code points.
- StoryWriter.Initial: `selectable_items` is not set by the source's
  constructor; it is first set when the panel is drawn, and `run` always
  draws before it reads a key. The model starts it empty.
- StoryWriter.StoryWriterUI.HandleInput: each branch of the source's
  if/elif chain is a method of its own. The state changes are the same, in
  the same order.
- UP and DOWN with the panel hidden are "simplified" no-ops in the source
  (a pass): there is no vertical cursor movement to model.
- `storywriter_ui.py` has no word wrap, book or chapter library, dirty flag or
  dialogs, and the model adds none.

## Findings

| source | as written | input that shows it | evidently intended | confidence | as-written member | corrected member |
|---|---|---|---|---|---|---|
| storywriter_ui.py:159-161 | a line longer than `content_width - 2` becomes `line[:content_width - 5] + "..."` | `content_width` 4 and the line "abcdef": `line[:-1]` counts from the end, giving "abcde..." (8 characters) for a 2-column box (Text.TruncateOverflowsNarrow) | the truncated line never exceeds the box's inner width `content_width - 2` | not executed | Text.TruncateAsWritten | Text.Truncate |
