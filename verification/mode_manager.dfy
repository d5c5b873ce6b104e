/** `ModeManager` of src/modes/mod.rs as a class: its four fields are
    updated in place, and each key handler works on a `BufferManager`. Every
    method is proved to do what the functions of module Modes say. */
module ModeControl {
  import opened Basics
  import opened Text
  import opened CursorMotion
  import opened Keys
  import opened Editing
  import opened Management
  import opened Search
  import opened Modes
  import opened TextBuffer

  class ModeManager {
    var currentMode: Mode
    var lastMode: Mode
    var commandBuffer: Line
    var lastSearchPattern: Line

    function State(): ModeState
      reads this
    {
      ModeState(currentMode, lastMode, commandBuffer, lastSearchPattern)
    }

    constructor ()
      ensures State() == InitialModes
    {
      currentMode := Normal;
      lastMode := Normal;
      commandBuffer := [];
      lastSearchPattern := [];
    }

    method SetMode(mode: Mode)
      modifies this
      ensures State() == Modes.SetMode(old(State()), mode)
    {
      lastMode := currentMode;
      currentMode := mode;
      if mode == Command && !StartsWith(commandBuffer, "/") {
        commandBuffer := [];
      }
    }

    method SetCommandModeWithPrefix(prefix: char)
      modifies this
      ensures State() == Modes.SetCommandModeWithPrefix(old(State()), prefix)
    {
      lastMode := currentMode;
      currentMode := Command;
      commandBuffer := [];
      commandBuffer := commandBuffer + [prefix];
    }

    /** `search_in_buffer`. */
    method SearchInBuffer(pattern: Line, bm: BufferManager)
      requires bm.Valid()
      modifies bm
      ensures bm.Valid()
      ensures bm.Abs() == SearchForwardIn(old(bm.Abs()), pattern)
    {
      var current := bm.CurrentBuffer();
      if current.None? {
        return;
      }
      var b := current.value;
      var found := FindForward(b.content, b.cursor.position, pattern);
      if found.Some? {
        bm.UpdateCurrent(b.(cursor := ToPosition(found.value)));
      }
    }

    /** `search_backward_in_buffer`. */
    method SearchBackwardInBuffer(pattern: Line, bm: BufferManager)
      requires bm.Valid() && CanSearchBackward(bm.Abs())
      modifies bm
      ensures bm.Valid()
      ensures bm.Abs() == SearchBackwardIn(old(bm.Abs()), pattern)
    {
      var current := bm.CurrentBuffer();
      if current.None? {
        return;
      }
      var b := current.value;
      var found := FindBackward(b.content, b.cursor.position, pattern);
      if found.Some? {
        bm.UpdateCurrent(b.(cursor := ToPosition(found.value)));
      }
    }

    /** `get_word_under_cursor`. */
    method GetWordUnderCursor(cls: Classifier, bm: BufferManager) returns (r: Option<Line>)
      requires bm.Valid()
      ensures r == WordUnderCursor(cls, bm.Abs())
    {
      var current := bm.CurrentBuffer();
      if current.None? {
        return None;
      }
      var b := current.value;
      var p := b.cursor.position;
      if p.row < |b.content| {
        r := WordAround(cls, b.content[p.row], p.col);
      } else {
        r := None;
      }
    }

    /** Remembers `pattern` as the last search and searches forward for it,
        as the "/pattern" command and the `*` key do. */
    method SearchAndRemember(pattern: Line, bm: BufferManager)
      requires bm.Valid()
      modifies this, bm
      ensures bm.Valid()
      ensures State() == old(State()).(lastSearch := pattern)
      ensures bm.Abs() == SearchForwardIn(old(bm.Abs()), pattern)
    {
      lastSearchPattern := pattern;
      SearchInBuffer(pattern, bm);
    }

    /** The "w name" command: `save_as` on the current buffer, if any. */
    method SaveCurrentAs(name: Line, bm: BufferManager, writeOk: bool)
      requires bm.Valid()
      modifies bm
      ensures bm.Valid()
      ensures bm.Abs() == Modes.SaveCurrentAs(old(bm.Abs()), name, writeOk)
    {
      var current := bm.CurrentBuffer();
      if current.Some? {
        bm.UpdateCurrent(SaveAs(current.value, name, writeOk).0);
      }
    }

    /** Runs one parsed ex command. */
    method RunCommand(c: ExCommand, bm: BufferManager, io: IoReply)
      requires bm.Valid()
      modifies this, bm
      ensures bm.Valid()
      ensures State() == Modes.RunCommand(old(State()), old(bm.Abs()), c, io).0
      ensures bm.Abs() == Modes.RunCommand(old(State()), old(bm.Abs()), c, io).1
    {
      match c {
        case SearchFor(pattern) =>
          SearchAndRemember(pattern, bm);
        case Quit =>
        case Write =>
          var _ := bm.SaveCurrent(io.writeOk);
        case WriteAs(name) =>
          SaveCurrentAs(name, bm, io.writeOk);
        case Edit(name) =>
          var _ := bm.OpenFile(name, io.read);
        case Ignored =>
      }
    }

    /** `execute_command`. */
    method ExecuteCommand(cls: Classifier, command: Line, bm: BufferManager, io: IoReply)
      requires bm.Valid()
      modifies this, bm
      ensures bm.Valid()
      ensures State() == Modes.ExecuteCommand(cls, old(State()), old(bm.Abs()), command, io).0
      ensures bm.Abs() == Modes.ExecuteCommand(cls, old(State()), old(bm.Abs()), command, io).1
    {
      RunCommand(ParseCommand(cls, command), bm, io);
    }

    /** `handle_normal_mode`. */
    method HandleNormalMode(cls: Classifier, key: KeyEvent, bm: BufferManager)
      requires bm.Valid() && NormalSafe(State(), bm.Abs(), key)
      modifies this, bm
      ensures bm.Valid()
      ensures State() == HandleNormal(cls, old(State()), old(bm.Abs()), key).0
      ensures bm.Abs() == HandleNormal(cls, old(State()), old(bm.Abs()), key).1
    {
      match NormalBinding(key) {
        case Forward(op) =>
          bm.Run(cls, op);
        case ForwardThenInsert(op) =>
          bm.Run(cls, op);
          SetMode(Insert);
        case SwitchTo(mode) =>
          SetMode(mode);
        case StartSearch =>
          SetCommandModeWithPrefix('/');
        case SearchNext =>
          if lastSearchPattern != [] {
            SearchInBuffer(lastSearchPattern, bm);
          }
        case SearchPrevious =>
          if lastSearchPattern != [] {
            SearchBackwardInBuffer(lastSearchPattern, bm);
          }
        case SearchWordUnderCursor =>
          var word := GetWordUnderCursor(cls, bm);
          if word.Some? {
            SearchAndRemember(word.value, bm);
          }
        case PreviousBuffer =>
          assert false;
        case NoAction =>
      }
    }

    /** `handle_insert_mode`. */
    method HandleInsertMode(cls: Classifier, key: KeyEvent, bm: BufferManager)
      requires bm.Valid() && InsertSafe(bm.Abs(), key)
      modifies this, bm
      ensures bm.Valid()
      ensures State() == HandleInsert(cls, old(State()), old(bm.Abs()), key).0
      ensures bm.Abs() == HandleInsert(cls, old(State()), old(bm.Abs()), key).1
    {
      match key.code {
        case Esc => SetMode(Normal);
        case Char(c) => bm.Run(cls, InsertChar(c));
        case Enter => bm.Run(cls, InsertNewline);
        case Backspace => bm.Run(cls, Op.Backspace);
        case Delete => bm.Run(cls, DeleteChar);
        case Tab => bm.Run(cls, InsertTab);
        case _ =>
      }
    }

    /** `handle_visual_mode`. */
    method HandleVisualMode(key: KeyEvent, bm: BufferManager)
      requires bm.Valid()
      modifies this
      ensures State() == HandleVisual(old(State()), bm.Abs(), key).0
    {
      if key.code.Esc? {
        SetMode(Normal);
      }
    }

    /** Enter in command mode: the line is run and Normal mode resumes. */
    method SubmitCommand(cls: Classifier, bm: BufferManager, io: IoReply)
      requires bm.Valid()
      modifies this, bm
      ensures bm.Valid()
      ensures var executed := Modes.ExecuteCommand(cls, old(State()), old(bm.Abs()), old(commandBuffer), io);
              State() == Modes.SetMode(executed.0, Normal) && bm.Abs() == executed.1
    {
      ExecuteCommand(cls, commandBuffer, bm, io);
      SetMode(Normal);
    }

    /** `handle_command_mode`. */
    method HandleCommandMode(cls: Classifier, key: KeyEvent, bm: BufferManager, io: IoReply)
      requires bm.Valid()
      modifies this, bm
      ensures bm.Valid()
      ensures State() == HandleCommand(cls, old(State()), old(bm.Abs()), key, io).0
      ensures bm.Abs() == HandleCommand(cls, old(State()), old(bm.Abs()), key, io).1
    {
      match key.code {
        case Esc =>
          SetMode(Normal);
        case Enter =>
          SubmitCommand(cls, bm, io);
        case Backspace =>
          if |commandBuffer| > 0 {
            commandBuffer := commandBuffer[..|commandBuffer| - 1];
          }
        case Char(c) =>
          commandBuffer := commandBuffer + [c];
        case _ =>
      }
    }

    /** `handle_key`. */
    method HandleKey(cls: Classifier, key: KeyEvent, bm: BufferManager, io: IoReply)
      requires bm.Valid() && KeySafe(State(), bm.Abs(), key)
      modifies this, bm
      ensures bm.Valid()
      ensures State() == Modes.HandleKey(cls, old(State()), old(bm.Abs()), key, io).0
      ensures bm.Abs() == Modes.HandleKey(cls, old(State()), old(bm.Abs()), key, io).1
    {
      match currentMode {
        case Normal => HandleNormalMode(cls, key, bm);
        case Insert => HandleInsertMode(cls, key, bm);
        case Visual => HandleVisualMode(key, bm);
        case Command => HandleCommandMode(cls, key, bm, io);
      }
    }
  }
}
