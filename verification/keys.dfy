/** Key tokens: the mapping from the characters read off the terminal to the
    key events the editor's input handler dispatches on. */
module Keys {

  /** The tokens `get_key` can produce. The source uses strings: the names
      below ("UP", "CTRL_B", ...) or the one character read. Every token name
      is longer than one character, so a one-character string never clashes
      with a name and the closed datatype loses nothing. */
  datatype Key =
    | Up | Down | Right | Left
    | Tab | Enter | Backspace
    | CtrlC | CtrlQ | CtrlB
    | Char(c: char)

  const Esc: char := '\U{1B}'

  /** Single characters that get_key turns into a named token. */
  const NamedControls: set<char> :=
    {'\t', '\r', '\U{7F}', '\U{03}', '\U{11}', '\U{02}'}

  /** The two characters that follow ESC for each arrow key. */
  const ArrowTails: set<string> := {"[A", "[B", "[C", "[D"}

  /** Decodes one key press. `first` is the character read; `following` is
      what the second read returned, and it is consulted only when `first`
      is ESC (the source reads it only then). An ESC followed by anything
      other than an arrow tail falls through and yields the ESC character
      itself; the characters read after it are dropped. */
  function DecodeKey(first: char, following: string): (k: Key)
    ensures k.Char? <==> first !in NamedControls && !(first == Esc && following in ArrowTails)
    ensures k.Char? ==> k.c == first
    ensures k in {Up, Down, Right, Left} <==> first == Esc && following in ArrowTails
  {
    if first == Esc then
      if following == "[A" then Up
      else if following == "[B" then Down
      else if following == "[C" then Right
      else if following == "[D" then Left
      else Char(first)
    else if first == '\t' then Tab
    else if first == '\r' then Enter
    else if first == '\U{7F}' then Backspace
    else if first == '\U{03}' then CtrlC
    else if first == '\U{11}' then CtrlQ
    else if first == '\U{02}' then CtrlB
    else Char(first)
  }

  /** The characters a terminal sends for a key: the first character and the
      two that follow ESC for the arrows (empty otherwise). This is the
      inverse of DecodeKey on every key a terminal can produce: a Char
      carrying one of the named control characters never comes out of it. */
  function KeyChars(k: Key): (r: (char, string))
    ensures (k.Char? ==> k.c !in NamedControls) ==> DecodeKey(r.0, r.1) == k
  {
    match k
    case Up => (Esc, "[A")
    case Down => (Esc, "[B")
    case Right => (Esc, "[C")
    case Left => (Esc, "[D")
    case Tab => ('\t', "")
    case Enter => ('\r', "")
    case Backspace => ('\U{7F}', "")
    case CtrlC => ('\U{03}', "")
    case CtrlQ => ('\U{11}', "")
    case CtrlB => ('\U{02}', "")
    case Char(c) => (c, "")
  }

  /** Decoding then re-encoding gives back the first character, and the
      following characters exactly when they were part of the key. */
  lemma DecodeThenEncode(first: char, following: string)
    ensures KeyChars(DecodeKey(first, following)).0 == first
    ensures KeyChars(DecodeKey(first, following)).1
         == if first == Esc && following in ArrowTails then following else ""
  {
  }
}
