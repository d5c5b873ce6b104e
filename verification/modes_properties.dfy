/** What the mode state machine of src/modes/mod.rs promises: which keys
    switch modes and how, that Visual mode only reacts to Esc, how the
    command line is edited and executed, and that searching only moves the
    cursor of the current buffer. */
module ModesProperties {
  import opened Basics
  import opened Text
  import opened CursorMotion
  import opened Keys
  import opened Editing
  import opened Management
  import opened Search
  import opened Modes
  import ManagementProperties

  /** In Visual mode Esc returns to Normal mode and every other key changes
      nothing at all. */
  lemma VisualModeOnlyReactsToEsc(cls: Classifier, s: ModeState, m: ManagerState, key: KeyEvent, io: IoReply)
    requires s.current == Visual
    ensures KeySafe(s, m, key)
    ensures key.code.Esc? ==> HandleKey(cls, s, m, key, io) == (s.(current := Normal, last := Visual), m)
    ensures !key.code.Esc? ==> HandleKey(cls, s, m, key, io) == (s, m)
  {
  }

  /** In Insert mode only Esc changes the mode state; it returns to Normal
      mode and leaves the buffers alone. */
  lemma InsertModeOnlyLeavesOnEsc(cls: Classifier, s: ModeState, m: ManagerState, key: KeyEvent, io: IoReply)
    requires s.current == Insert && KeySafe(s, m, key)
    ensures key.code.Esc? ==> HandleKey(cls, s, m, key, io) == (s.(current := Normal, last := Insert), m)
    ensures !key.code.Esc? ==> HandleKey(cls, s, m, key, io).0 == s
  {
  }

  /** The Normal-mode keys that switch modes: i, I, a, A, o and O enter
      Insert mode, v enters Visual mode, ':' enters Command mode keeping a
      pending search line ("/...") and clearing anything else, and '/' enters
      Command mode with the line "/". Only i, v, ':' and '/' leave the
      buffers alone. */
  lemma NormalModeSwitches(cls: Classifier, s: ModeState, m: ManagerState, c: char, ctrl: bool, io: IoReply)
    requires s.current == Normal && KeySafe(s, m, KeyEvent(Char(c), ctrl))
    ensures var r := HandleKey(cls, s, m, KeyEvent(Char(c), ctrl), io);
            c in "iIaAoO" ==>
              r.0 == s.(current := Insert, last := Normal) && (c == 'i' ==> r.1 == m)
    ensures var r := HandleKey(cls, s, m, KeyEvent(Char(c), ctrl), io);
            c == 'v' ==> r == (s.(current := Visual, last := Normal), m)
    ensures var r := HandleKey(cls, s, m, KeyEvent(Char(c), ctrl), io);
            c == ':' ==> r.0.current == Command && r.0.last == Normal && r.1 == m &&
                         r.0.commandBuffer == (if |s.commandBuffer| > 0 && s.commandBuffer[0] == '/' then s.commandBuffer else [])
    ensures var r := HandleKey(cls, s, m, KeyEvent(Char(c), ctrl), io);
            c == '/' ==> r == (s.(current := Command, last := Normal, commandBuffer := "/"), m)
  {
  }

  /** A Normal-mode key bound to nothing changes nothing. */
  lemma UnboundNormalKeysDoNothing(cls: Classifier, s: ModeState, m: ManagerState, key: KeyEvent, io: IoReply)
    requires s.current == Normal
    requires !key.code.Left? && !key.code.Right? && !key.code.Up? && !key.code.Down?
    requires key.code.Char? ==> key.code.c !in "hjklwWbBeE0$gGiIaAoOv:/xdunN*" && !(key.ctrl && key.code.c in "rp")
    ensures KeySafe(s, m, key) && HandleKey(cls, s, m, key, io) == (s, m)
  {
    assert NormalBinding(key) == NoAction;
  }

  /** Only Ctrl-r and Ctrl-p depend on the Control key: plain 'r' does
      nothing, and Ctrl-n is caught by the 'n' binding. */
  lemma ControlKeyBindings(cls: Classifier, s: ModeState, m: ManagerState, io: IoReply)
    requires s.current == Normal
    ensures NormalBinding(KeyEvent(Char('r'), false)) == NoAction &&
            HandleKey(cls, s, m, KeyEvent(Char('r'), false), io) == (s, m)
    ensures NormalBinding(KeyEvent(Char('r'), true)) == Forward(Redo) &&
            HandleKey(cls, s, m, KeyEvent(Char('r'), true), io) == (s, Perform(cls, m, Redo))
    ensures NormalBinding(KeyEvent(Char('n'), true)) == NormalBinding(KeyEvent(Char('n'), false)) == SearchNext &&
            HandleKey(cls, s, m, KeyEvent(Char('n'), true), io) == HandleKey(cls, s, m, KeyEvent(Char('n'), false), io)
    ensures NormalBinding(KeyEvent(Char('p'), true)) == PreviousBuffer && !KeySafe(s, m, KeyEvent(Char('p'), true))
    ensures NormalBinding(KeyEvent(Char('p'), false)) == NoAction &&
            HandleKey(cls, s, m, KeyEvent(Char('p'), false), io) == (s, m)
  {
  }

  /** `n` and `N` do nothing before a search pattern has been set. */
  lemma RepeatSearchNeedsPattern(cls: Classifier, s: ModeState, m: ManagerState, c: char, ctrl: bool, io: IoReply)
    requires s.current == Normal && s.lastSearch == [] && (c == 'n' || c == 'N')
    ensures KeySafe(s, m, KeyEvent(Char(c), ctrl))
    ensures HandleKey(cls, s, m, KeyEvent(Char(c), ctrl), io) == (s, m)
  {
    assert NormalBinding(KeyEvent(Char(c), ctrl)) == if c == 'n' then SearchNext else SearchPrevious;
  }

  /** `*` takes the word under the cursor, a non-empty run of alphanumerics,
      as the new search pattern and searches forward for it; without a word
      it does nothing. */
  lemma StarSearchesWordUnderCursor(cls: Classifier, s: ModeState, m: ManagerState, ctrl: bool, io: IoReply)
    requires s.current == Normal
    ensures var r := HandleKey(cls, s, m, KeyEvent(Char('*'), ctrl), io);
            match WordUnderCursor(cls, m)
            case None => r == (s, m)
            case Some(w) =>
              w != [] && (forall i | 0 <= i < |w| :: cls.isAlphanumeric(w[i])) &&
              r == (s.(lastSearch := w), SearchForwardIn(m, w))
  {
    assert NormalBinding(KeyEvent(Char('*'), ctrl)) == SearchWordUnderCursor;
    var b := Current(m);
    if b.Some? && b.value.cursor.position.row < |b.value.content| {
      var p := b.value.cursor.position;
      WordAtIsRunAroundCursor(cls, b.value.content[p.row], p.col);
    }
  }

  /** Command-line editing: characters are appended, Backspace drops the
      last one (nothing when the line is empty), and both stay in Command
      mode without touching the buffers; Esc returns to Normal mode without
      running the line, and keeps it. */
  lemma CommandLineEditing(cls: Classifier, s: ModeState, m: ManagerState, key: KeyEvent, io: IoReply)
    requires s.current == Command
    ensures KeySafe(s, m, key)
    ensures var r := HandleKey(cls, s, m, key, io);
            key.code.Char? ==> r == (s.(commandBuffer := s.commandBuffer + [key.code.c]), m)
    ensures var r := HandleKey(cls, s, m, key, io);
            key.code.Backspace? ==>
              (r.1 == m && r.0.current == Command &&
               (s.commandBuffer == [] ==> r.0 == s) &&
               (s.commandBuffer != [] ==> r.0.commandBuffer + [s.commandBuffer[|s.commandBuffer| - 1]] == s.commandBuffer))
    ensures var r := HandleKey(cls, s, m, key, io);
            key.code.Esc? ==> r == (s.(current := Normal, last := Command), m)
  {
    if key.code.Backspace? && s.commandBuffer != [] {
      var line := s.commandBuffer;
      assert line[..|line| - 1] + [line[|line| - 1]] == line;
    }
  }

  /** Running a command changes at most the search pattern of the mode
      state, and only a "/pattern" command with a non-empty pattern does. */
  lemma ExecuteCommandOnlySetsSearchPattern(cls: Classifier, s: ModeState, m: ManagerState, command: Line, io: IoReply)
    ensures var r := ExecuteCommand(cls, s, m, command, io);
            var t := Trim(cls, command);
            r.0.current == s.current && r.0.last == s.last && r.0.commandBuffer == s.commandBuffer &&
            (r.0.lastSearch != s.lastSearch ==> |t| > 1 && t[0] == '/' && r.0.lastSearch == t[1..])
  {
    var t := Trim(cls, command);
    ExCommandGrammar(cls, t);
  }

  /** Enter runs the command line and always ends in Normal mode, with the
      line kept. */
  lemma EnterRunsCommandAndReturnsToNormal(cls: Classifier, s: ModeState, m: ManagerState, ctrl: bool, io: IoReply)
    requires s.current == Command
    ensures var r := HandleKey(cls, s, m, KeyEvent(Enter, ctrl), io);
            var executed := ExecuteCommand(cls, s, m, s.commandBuffer, io);
            r.0 == s.(current := Normal, last := Command, lastSearch := executed.0.lastSearch) &&
            r.1 == executed.1
  {
    ExecuteCommandOnlySetsSearchPattern(cls, s, m, s.commandBuffer, io);
  }

  /** The ex-command grammar on a trimmed line: "/" followed by a pattern
      is a search and nothing else is, the quit commands are recognised,
      the five write commands save, "w name" and "e name" take the rest of
      the line, trimmed, as the name, and "/" alone or a line that starts
      with none of '/', 'q', 'w', 'x', 'e' is ignored. */
  lemma ExCommandGrammar(cls: Classifier, t: Line)
    ensures ParseTrimmed(cls, t).SearchFor? <==> |t| > 1 && t[0] == '/'
    ensures |t| > 1 && t[0] == '/' ==> ParseTrimmed(cls, t) == SearchFor(t[1..])
    ensures t == "q" || t == "quit" || t == "q!" ==> ParseTrimmed(cls, t) == Quit
    ensures t == "w" || t == "write" || t == "wq" || t == "x" || t == "wq!" ==> ParseTrimmed(cls, t) == Write
    ensures |t| > 2 && t[..2] == "w " ==> ParseTrimmed(cls, t) == WriteAs(Trim(cls, t[2..]))
    ensures |t| > 2 && t[..2] == "e " ==> ParseTrimmed(cls, t) == Edit(Trim(cls, t[2..]))
    ensures t == "/" || t == [] || t[0] !in "/qwxe" ==> ParseTrimmed(cls, t) == Ignored
  {
    if |t| > 2 && t[..2] in {"w ", "e "} {
      assert t[1] == ' ' && t[..2] == [t[0], ' '];
      assert !StartsWith(t, "/") && !IsWriteCommand(t) && t != "q" && t != "quit" && t != "q!";
    }
    if t != [] && t[0] !in "/qwxe" {
      var c := t[0];
      assert c != '/' && c != 'q' && c != 'w' && c != 'x' && c != 'e';
      assert !StartsWith(t, "/") && !StartsWith(t, "w ") && !StartsWith(t, "e ");
      assert !IsWriteCommand(t) && t != "q" && t != "quit" && t != "q!";
    }
  }

  /** Leading and trailing whitespace around a command is ignored. */
  lemma CommandsIgnoreSurroundingBlanks(cls: Classifier, command: Line)
    ensures ParseCommand(cls, command) == ParseCommand(cls, Trim(cls, command))
  {
    TrimIsIdempotent(cls, command);
  }

  lemma TrimIsIdempotent(cls: Classifier, s: Line)
    ensures Trim(cls, Trim(cls, s)) == Trim(cls, s)
  {
  }

  /** A mode change always records the mode it leaves; the remembered mode
      changes only with the mode. */
  lemma HandleKeyRecordsLastMode(cls: Classifier, s: ModeState, m: ManagerState, key: KeyEvent, io: IoReply)
    requires KeySafe(s, m, key)
    ensures var r := HandleKey(cls, s, m, key, io);
            (r.0.current != s.current ==> r.0.last == s.current) &&
            (r.0.current == s.current ==> r.0.last == s.last)
  {
    match s.current
    case Normal => assert HandleKey(cls, s, m, key, io) == HandleNormal(cls, s, m, key);
    case Insert => assert HandleKey(cls, s, m, key, io) == HandleInsert(cls, s, m, key);
    case Visual => assert HandleKey(cls, s, m, key, io) == HandleVisual(s, m, key);
    case Command =>
      if key.code.Enter? {
        ExecuteCommandOnlySetsSearchPattern(cls, s, m, s.commandBuffer, io);
      }
  }

  /** A search moves the cursor of the current buffer to the match and
      changes nothing else; without a match, or without a current buffer, it
      changes nothing at all. */
  lemma SearchOnlyMovesCursor(m: ManagerState, pat: Line)
    requires WellFormed(m)
    ensures var r := SearchForwardIn(m, pat);
            WellFormed(r) && r.current == m.current && r.nextId == m.nextId &&
            match Current(m)
            case None => r == m
            case Some(b) =>
              match ForwardMatch(b.content, b.cursor.position, pat)
              case None => r == m
              case Some(p) => r.buffers == m.buffers[b.id := b.(cursor := CursorState(p, p.col))]
  {
  }

  /** The same for backward search. */
  lemma BackwardSearchOnlyMovesCursor(m: ManagerState, pat: Line)
    requires WellFormed(m) && CanSearchBackward(m)
    ensures var r := SearchBackwardIn(m, pat);
            WellFormed(r) && r.current == m.current && r.nextId == m.nextId &&
            match Current(m)
            case None => r == m
            case Some(b) =>
              match BackwardMatch(b.content, b.cursor.position, pat)
              case None => r == m
              case Some(p) => r.buffers == m.buffers[b.id := b.(cursor := CursorState(p, p.col))]
  {
  }

  /** No key breaks the buffer manager's bookkeeping: every buffer stays
      under its own id below the next id, and the current id names a
      buffer. */
  lemma HandleKeyKeepsManagerWellFormed(cls: Classifier, s: ModeState, m: ManagerState, key: KeyEvent, io: IoReply)
    requires WellFormed(m) && KeySafe(s, m, key)
    ensures WellFormed(HandleKey(cls, s, m, key, io).1)
  {
    match s.current {
      case Normal =>
        match NormalBinding(key) {
          case Forward(op) => ManagementProperties.PerformTouchesOnlyCurrent(cls, m, op);
          case ForwardThenInsert(op) => ManagementProperties.PerformTouchesOnlyCurrent(cls, m, op);
          case SearchNext => SearchOnlyMovesCursor(m, s.lastSearch);
          case SearchPrevious =>
            if s.lastSearch != [] {
              BackwardSearchOnlyMovesCursor(m, s.lastSearch);
            }
          case SearchWordUnderCursor =>
            if WordUnderCursor(cls, m).Some? {
              SearchOnlyMovesCursor(m, WordUnderCursor(cls, m).value);
            }
          case _ =>
        }
      case Insert =>
        if !key.code.Esc? {
          var op := match key.code
            case Char(c) => InsertChar(c)
            case Enter => InsertNewline
            case Backspace => Op.Backspace
            case Delete => DeleteChar
            case _ => InsertTab;
          ManagementProperties.PerformTouchesOnlyCurrent(cls, m, op);
        }
      case Visual =>
      case Command =>
        if key.code.Enter? {
          ExecuteKeepsManagerWellFormed(cls, s, m, s.commandBuffer, io);
        }
    }
  }

  lemma ExecuteKeepsManagerWellFormed(cls: Classifier, s: ModeState, m: ManagerState, command: Line, io: IoReply)
    requires WellFormed(m)
    ensures WellFormed(ExecuteCommand(cls, s, m, command, io).1)
  {
    var after := ExecuteCommand(cls, s, m, command, io).1;
    match ParseCommand(cls, command) {
      case SearchFor(pattern) =>
        assert after == SearchForwardIn(m, pattern);
        SearchOnlyMovesCursor(m, pattern);
      case Write =>
        assert after == SaveCurrent(m, io.writeOk).0;
        ManagementProperties.SaveCurrentOutcomes(m, io.writeOk);
      case WriteAs(name) =>
        assert after == SaveCurrentAs(m, name, io.writeOk);
        SaveAsKeepsManagerWellFormed(m, name, io.writeOk);
      case Edit(name) =>
        assert after == OpenFile(m, name, io.read).0;
        ManagementProperties.OpenFileUsesUpId(m, name, io.read);
      case _ =>
        assert after == m;
    }
  }

  /** "w name" keeps the manager well formed: the saved buffer keeps its id. */
  lemma SaveAsKeepsManagerWellFormed(m: ManagerState, name: Line, writeOk: bool)
    requires WellFormed(m)
    ensures var after := SaveCurrentAs(m, name, writeOk);
            WellFormed(after) && after.current == m.current && after.buffers.Keys == m.buffers.Keys
  {
  }

  /** Typing "/", a character and Enter in Normal mode searches for that
      character, remembers it for `n` and `N`, and ends in Normal mode. */
  lemma TypedSearch(cls: Classifier, s: ModeState, m: ManagerState, c: char, io: IoReply)
    requires s.current == Normal && !cls.isWhitespace('/') && !cls.isWhitespace(c)
    ensures var s1 := HandleKey(cls, s, m, KeyEvent(Char('/'), false), io);
            var s2 := HandleKey(cls, s1.0, s1.1, KeyEvent(Char(c), false), io);
            var s3 := HandleKey(cls, s2.0, s2.1, KeyEvent(Enter, false), io);
            s1.1 == m && s2.1 == m && s2.0.commandBuffer == ['/', c] &&
            s3.0.current == Normal && s3.0.lastSearch == [c] && s3.1 == SearchForwardIn(m, [c])
  {
    var line := ['/', c];
    assert TrimStart(cls, line) == line;
    assert TrimEnd(cls, line) == line;
    assert Trim(cls, line) == line;
  }
}
