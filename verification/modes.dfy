/** The mode state machine of src/modes/mod.rs as functions over values:
    the state of `ModeManager`, what each key does in each mode to it and to
    the buffer manager, and the ex-command grammar of `execute_command`. The
    `ModeManager` class of module ModeControl performs the same updates in
    place. */
module Modes {
  import opened Basics
  import opened Text
  import opened CursorMotion
  import opened Keys
  import opened Editing
  import opened Management
  import opened Search

  datatype Mode = Normal | Insert | Visual | Command

  datatype ModeState = ModeState(current: Mode, last: Mode, commandBuffer: Line, lastSearch: Line)

  /** `ModeManager::new`. */
  const InitialModes := ModeState(Normal, Normal, [], [])

  /** `set_mode`: remember the mode being left; entering Command mode clears
      the command line unless it holds a search ("/..."). */
  function SetMode(s: ModeState, mode: Mode): (r: ModeState)
    ensures r.current == mode && r.last == s.current && r.lastSearch == s.lastSearch
    ensures r.commandBuffer == (if mode == Command && !StartsWith(s.commandBuffer, "/") then [] else s.commandBuffer)
  {
    var cleared := mode == Command && !StartsWith(s.commandBuffer, "/");
    s.(last := s.current, current := mode, commandBuffer := if cleared then [] else s.commandBuffer)
  }

  /** `set_command_mode_with_prefix`: Command mode with the line holding
      just `prefix`. */
  function SetCommandModeWithPrefix(s: ModeState, prefix: char): (r: ModeState)
    ensures r.current == Command && r.last == s.current && r.commandBuffer == [prefix] && r.lastSearch == s.lastSearch
  {
    s.(last := s.current, current := Command, commandBuffer := [prefix])
  }

  // ---------------------------------------------------------------------
  // Search on the current buffer
  // ---------------------------------------------------------------------

  /** `search_in_buffer`: move the current buffer's cursor to the forward
      match, if there is a current buffer and a match. */
  function SearchForwardIn(m: ManagerState, pat: Line): ManagerState {
    match Current(m)
    case None => m
    case Some(b) =>
      match ForwardMatch(b.content, b.cursor.position, pat)
      case None => m
      case Some(p) => WithCurrent(m, b.(cursor := ToPosition(p)))
  }

  /** Backward search indexes the cursor row of the current buffer. */
  predicate CanSearchBackward(m: ManagerState) {
    Current(m).Some? ==> Current(m).value.cursor.position.row < |Current(m).value.content|
  }

  /** `search_backward_in_buffer`. */
  function SearchBackwardIn(m: ManagerState, pat: Line): ManagerState
    requires CanSearchBackward(m)
  {
    match Current(m)
    case None => m
    case Some(b) =>
      match BackwardMatch(b.content, b.cursor.position, pat)
      case None => m
      case Some(p) => WithCurrent(m, b.(cursor := ToPosition(p)))
  }

  /** `get_word_under_cursor`: none without a current buffer or when the
      cursor row does not exist. */
  function WordUnderCursor(cls: Classifier, m: ManagerState): Option<Line> {
    match Current(m)
    case None => None
    case Some(b) =>
      var p := b.cursor.position;
      if p.row < |b.content| then WordAt(cls, b.content[p.row], p.col) else None
  }

  // ---------------------------------------------------------------------
  // Normal mode
  // ---------------------------------------------------------------------

  /** What a Normal-mode key is bound to, in the order of the arms of
      `handle_normal_mode`. */
  datatype NormalAction =
    | Forward(op: Op)               // a forwarding method of BufferManager
    | ForwardThenInsert(op: Op)     // I, a, A, o, O
    | SwitchTo(mode: Mode)          // i, v, :
    | StartSearch                   // /
    | SearchNext                    // n (and Ctrl-n, which the `n` arm catches first)
    | SearchPrevious                // N
    | SearchWordUnderCursor         // *
    | PreviousBuffer                // Ctrl-p
    | NoAction

  /** The key bindings of Normal mode. Only Ctrl-r and Ctrl-p look at the
      modifiers; every other binding ignores them. */
  function NormalBinding(key: KeyEvent): NormalAction {
    match key.code
    case Left => Forward(MoveCursorLeft)
    case Down => Forward(MoveCursorDown)
    case Up => Forward(MoveCursorUp)
    case Right => Forward(MoveCursorRight)
    case Char(c) =>
      if c == 'h' then Forward(MoveCursorLeft)
      else if c == 'j' then Forward(MoveCursorDown)
      else if c == 'k' then Forward(MoveCursorUp)
      else if c == 'l' then Forward(MoveCursorRight)
      else if c == 'w' || c == 'W' then Forward(MoveWordForward)
      else if c == 'b' || c == 'B' then Forward(MoveWordBackward)
      else if c == 'e' || c == 'E' then Forward(MoveToEndOfWord)
      else if c == '0' then Forward(MoveToLineStart)
      else if c == '$' then Forward(MoveToLineEnd)
      else if c == 'g' then Forward(MoveToFileStart)
      else if c == 'G' then Forward(MoveToFileEnd)
      else if c == 'i' then SwitchTo(Insert)
      else if c == 'I' then ForwardThenInsert(MoveToLineStart)
      else if c == 'a' then ForwardThenInsert(MoveCursorRight)
      else if c == 'A' then ForwardThenInsert(MoveToLineEnd)
      else if c == 'o' then ForwardThenInsert(InsertLineBelow)
      else if c == 'O' then ForwardThenInsert(InsertLineAbove)
      else if c == 'v' then SwitchTo(Visual)
      else if c == ':' then SwitchTo(Command)
      else if c == '/' then StartSearch
      else if c == 'x' then Forward(DeleteChar)
      else if c == 'd' then Forward(DeleteLine)
      else if c == 'u' then Forward(Undo)
      else if c == 'r' && key.ctrl then Forward(Redo)
      else if c == 'n' then SearchNext
      else if c == 'N' then SearchPrevious
      else if c == '*' then SearchWordUnderCursor
      else if c == 'p' && key.ctrl then PreviousBuffer
      else NoAction
    case _ => NoAction
  }

  /** The key neither panics nor calls `previous_buffer`, which is not part
      of this model. */
  predicate NormalSafe(s: ModeState, m: ManagerState, key: KeyEvent) {
    match NormalBinding(key)
    case Forward(op) => CanPerform(m, op)
    case ForwardThenInsert(op) => CanPerform(m, op)
    case SearchPrevious => s.lastSearch != [] ==> CanSearchBackward(m)
    case PreviousBuffer => false
    case _ => true
  }

  /** `handle_normal_mode`. */
  function HandleNormal(cls: Classifier, s: ModeState, m: ManagerState, key: KeyEvent): (ModeState, ManagerState)
    requires NormalSafe(s, m, key)
  {
    match NormalBinding(key)
    case Forward(op) => (s, Perform(cls, m, op))
    case ForwardThenInsert(op) => (SetMode(s, Insert), Perform(cls, m, op))
    case SwitchTo(mode) => (SetMode(s, mode), m)
    case StartSearch => (SetCommandModeWithPrefix(s, '/'), m)
    case SearchNext => if s.lastSearch != [] then (s, SearchForwardIn(m, s.lastSearch)) else (s, m)
    case SearchPrevious => if s.lastSearch != [] then (s, SearchBackwardIn(m, s.lastSearch)) else (s, m)
    case SearchWordUnderCursor =>
      (match WordUnderCursor(cls, m)
       case Some(w) => (s.(lastSearch := w), SearchForwardIn(m, w))
       case None => (s, m))
    case PreviousBuffer => (s, m)
    case NoAction => (s, m)
  }

  // ---------------------------------------------------------------------
  // Insert and Visual mode
  // ---------------------------------------------------------------------

  /** Backspace in Insert mode must not panic. */
  predicate InsertSafe(m: ManagerState, key: KeyEvent) {
    key.code.Backspace? ==> CanPerform(m, Op.Backspace)
  }

  /** `handle_insert_mode`: Esc leaves, every other mapped key edits. */
  function HandleInsert(cls: Classifier, s: ModeState, m: ManagerState, key: KeyEvent): (ModeState, ManagerState)
    requires InsertSafe(m, key)
  {
    match key.code
    case Esc => (SetMode(s, Normal), m)
    case Char(c) => (s, Perform(cls, m, InsertChar(c)))
    case Enter => (s, Perform(cls, m, InsertNewline))
    case Backspace => (s, Perform(cls, m, Op.Backspace))
    case Delete => (s, Perform(cls, m, DeleteChar))
    case Tab => (s, Perform(cls, m, InsertTab))
    case _ => (s, m)
  }

  /** `handle_visual_mode`: only Esc does anything. */
  function HandleVisual(s: ModeState, m: ManagerState, key: KeyEvent): (ModeState, ManagerState) {
    if key.code.Esc? then (SetMode(s, Normal), m) else (s, m)
  }

  // ---------------------------------------------------------------------
  // Command mode and the ex commands
  // ---------------------------------------------------------------------

  /** The outcome of the one file operation a command may perform: whether
      a write succeeds, and what reading a file yields. */
  datatype IoReply = IoReply(writeOk: bool, read: ReadReply)

  /** The "w name" command: `save_as` on the current buffer, if there is
      one. */
  function SaveCurrentAs(m: ManagerState, name: Line, writeOk: bool): ManagerState {
    match Current(m)
    case None => m
    case Some(b) => WithCurrent(m, SaveAs(b, name, writeOk).0)
  }

  /** The commands that save the current buffer. */
  predicate IsWriteCommand(t: Line) {
    t == "w" || t == "write" || t == "wq" || t == "x" || t == "wq!"
  }

  /** The commands `execute_command` tells apart on the trimmed line. */
  datatype ExCommand =
    | SearchFor(pattern: Line)   // "/pattern" with a non-empty pattern
    | Quit                       // "q", "quit", "q!": no effect yet
    | Write                      // "w", "write", "wq", "x", "wq!"
    | WriteAs(name: Line)        // "w name"
    | Edit(name: Line)           // "e name"
    | Ignored                    // "/" alone and every other line

  /** The ex-command grammar of `execute_command`, in the order it tests
      the line; a file name is the rest of the line, trimmed. */
  function ParseTrimmed(cls: Classifier, t: Line): ExCommand {
    if StartsWith(t, "/") then (if |t| > 1 then SearchFor(t[1..]) else Ignored)
    else if t == "q" || t == "quit" || t == "q!" then Quit
    else if IsWriteCommand(t) then Write
    else if StartsWith(t, "w ") then WriteAs(Trim(cls, t[2..]))
    else if StartsWith(t, "e ") then Edit(Trim(cls, t[2..]))
    else Ignored
  }

  /** `execute_command` parses the line with its blanks trimmed. */
  function ParseCommand(cls: Classifier, command: Line): ExCommand {
    ParseTrimmed(cls, Trim(cls, command))
  }

  /** What each parsed command does: a search remembers its pattern and
      searches; the write commands save the current buffer, "w name" saves
      it under a new path and "e name" opens a file, all ignoring errors;
      everything else does nothing. */
  function RunCommand(s: ModeState, m: ManagerState, c: ExCommand, io: IoReply): (ModeState, ManagerState) {
    match c
    case SearchFor(pattern) => (s.(lastSearch := pattern), SearchForwardIn(m, pattern))
    case Quit => (s, m)
    case Write => (s, SaveCurrent(m, io.writeOk).0)
    case WriteAs(name) => (s, SaveCurrentAs(m, name, io.writeOk))
    case Edit(name) => (s, OpenFile(m, name, io.read).0)
    case Ignored => (s, m)
  }

  /** `execute_command`: the trimmed line is parsed and run. */
  function ExecuteCommand(cls: Classifier, s: ModeState, m: ManagerState, command: Line, io: IoReply): (ModeState, ManagerState) {
    RunCommand(s, m, ParseCommand(cls, command), io)
  }

  /** `handle_command_mode`: Esc leaves, Enter runs the line and leaves,
      Backspace and characters edit the line. Leaving keeps the line. */
  function HandleCommand(cls: Classifier, s: ModeState, m: ManagerState, key: KeyEvent, io: IoReply): (ModeState, ManagerState) {
    var line := s.commandBuffer;
    match key.code
    case Esc => (SetMode(s, Normal), m)
    case Enter =>
      var executed := ExecuteCommand(cls, s, m, line, io);
      (SetMode(executed.0, Normal), executed.1)
    case Backspace => (s.(commandBuffer := if |line| > 0 then line[..|line| - 1] else line), m)
    case Char(c) => (s.(commandBuffer := line + [c]), m)
    case _ => (s, m)
  }

  // ---------------------------------------------------------------------
  // handle_key
  // ---------------------------------------------------------------------

  /** The key does not make the handler of the current mode panic. */
  predicate KeySafe(s: ModeState, m: ManagerState, key: KeyEvent) {
    match s.current
    case Normal => NormalSafe(s, m, key)
    case Insert => InsertSafe(m, key)
    case _ => true
  }

  /** `handle_key`: dispatch on the current mode. `io` is what the file
      system answers if the key runs a command that touches it. */
  function HandleKey(cls: Classifier, s: ModeState, m: ManagerState, key: KeyEvent, io: IoReply): (ModeState, ManagerState)
    requires KeySafe(s, m, key)
  {
    match s.current
    case Normal => HandleNormal(cls, s, m, key)
    case Insert => HandleInsert(cls, s, m, key)
    case Visual => HandleVisual(s, m, key)
    case Command => HandleCommand(cls, s, m, key, io)
  }
}
