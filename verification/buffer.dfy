/** The mutable objects of src/core/buffer.rs: `Buffer`, whose edits change
    its lines, cursor and history in place, and `BufferManager`, which owns
    the buffers by id. Each method is proved to do what the value-level
    function of module Editing or Management says. */
module TextBuffer {
  import opened Basics
  import opened Text
  import opened CursorMotion
  import opened Editing
  import opened Management
  import opened ManagementProperties

  class Buffer {
    const id: nat
    var path: Option<Line>
    var content: seq<Line>
    const cursor: Cursor
    var modified: bool
    var name: Line
    var undoStack: seq<Snapshot>
    var redoStack: seq<Snapshot>

    function State(): BufferState
      reads this, cursor
    {
      BufferState(id, path, content, cursor.State(), modified, name, undoStack, redoStack)
    }

    /** `Buffer::new`. */
    constructor (id: nat, name: Line)
      ensures State() == NewBuffer(id, name) && fresh(cursor)
    {
      this.id := id;
      this.name := name;
      path := None;
      content := [[]];
      cursor := new Cursor();
      modified := false;
      undoStack := [];
      redoStack := [];
    }

    /** The `Ok` case of `Buffer::from_file`, given the lines read. */
    constructor Loaded(id: nat, path: Line, content: seq<Line>)
      ensures State() == BufferState(id, Some(path), content, Origin, false, FileName(path), [], [])
      ensures fresh(cursor)
    {
      this.id := id;
      this.path := Some(path);
      this.content := content;
      cursor := new Cursor();
      modified := false;
      name := FileName(path);
      undoStack := [];
      redoStack := [];
    }

    method Save(writeOk: bool) returns (r: Result<(), EditorError>)
      modifies this
      ensures (State(), r) == Editing.Save(old(State()), writeOk)
    {
      if path.None? {
        return Err(NoFilePath);
      }
      if !writeOk {
        return Err(IoError);
      }
      modified := false;
      r := Ok(());
    }

    method SaveAs(newPath: Line, writeOk: bool) returns (r: Result<(), EditorError>)
      modifies this
      ensures (State(), r) == Editing.SaveAs(old(State()), newPath, writeOk)
    {
      if !writeOk {
        return Err(IoError);
      }
      path := Some(newPath);
      modified := false;
      r := Ok(());
    }

    method PushUndo()
      modifies this
      ensures State() == Editing.PushUndo(old(State()))
    {
      if |undoStack| > UndoLimit {
        undoStack := undoStack[1..];
      }
      undoStack := undoStack + [content];
      redoStack := [];
    }

    method InsertChar(c: char)
      modifies this, cursor
      ensures State() == Editing.InsertChar(old(State()), c)
    {
      PushUndo();
      var pos := cursor.position;
      if pos.row < |content| {
        var line := content[pos.row];
        var k := Cut(line, pos.col);
        content := content[pos.row := line[..k] + [c] + line[k..]];
        cursor.MoveRight(content);
        modified := true;
      }
    }

    method InsertNewline()
      modifies this, cursor
      ensures State() == Editing.InsertNewline(old(State()))
    {
      PushUndo();
      var pos := cursor.position;
      if pos.row < |content| {
        var line := content[pos.row];
        var k := Cut(line, pos.col);
        content := content[..pos.row] + [line[..k], line[k..]] + content[pos.row + 1..];
        cursor.MoveDown(content);
        cursor.MoveToColumn(0);
        modified := true;
      }
    }

    method Backspace()
      requires CanBackspace(State())
      modifies this, cursor
      ensures State() == Editing.Backspace(old(State()))
    {
      PushUndo();
      var pos := cursor.position;
      if pos.col > 0 {
        var line := content[pos.row];
        if pos.col - 1 < |line| {
          content := content[pos.row := line[..pos.col - 1] + line[pos.col..]];
          cursor.MoveLeft(content);
          modified := true;
        }
      } else if pos.row > 0 {
        var current := content[pos.row];
        var prev := content[pos.row - 1];
        content := content[..pos.row - 1] + [prev + current] + content[pos.row + 1..];
        cursor.MoveUp(content);
        cursor.MoveToColumn(|prev|);
        modified := true;
      }
    }

    method DeleteChar()
      modifies this
      ensures State() == Editing.DeleteChar(old(State()))
    {
      PushUndo();
      var pos := cursor.position;
      if pos.row < |content| {
        var line := content[pos.row];
        if pos.col < |line| {
          content := content[pos.row := line[..pos.col] + line[pos.col + 1..]];
          modified := true;
        } else if pos.row + 1 < |content| {
          content := content[..pos.row] + [line + content[pos.row + 1]] + content[pos.row + 2..];
          modified := true;
        }
      }
    }

    method DeleteLine()
      requires CanDeleteLine(State())
      modifies this, cursor
      ensures State() == Editing.DeleteLine(old(State()))
    {
      PushUndo();
      var pos := cursor.position;
      if |content| > 0 {
        if |content| == 1 {
          content := [[]];
        } else {
          content := content[..pos.row] + content[pos.row + 1..];
          if pos.row >= |content| && pos.row > 0 {
            cursor.MoveUp(content);
          }
        }
        cursor.MoveToColumn(0);
        modified := true;
      }
    }

    method Undo()
      modifies this
      ensures State() == Editing.Undo(old(State()))
    {
      if |undoStack| > 0 {
        var n := |undoStack| - 1;
        var previous := undoStack[n];
        undoStack := undoStack[..n];
        redoStack := redoStack + [content];
        content := previous;
        modified := true;
      }
    }

    method Redo()
      modifies this
      ensures State() == Editing.Redo(old(State()))
    {
      if |redoStack| > 0 {
        var n := |redoStack| - 1;
        var next := redoStack[n];
        redoStack := redoStack[..n];
        undoStack := undoStack + [content];
        content := next;
        modified := true;
      }
    }

    /** One operation `BufferManager` forwards to its current buffer; the
        two line insertions are written out here as the manager writes them
        on the buffer's fields. */
    method ApplyOp(cls: Classifier, op: Op)
      requires Allowed(State(), op)
      modifies this, cursor
      ensures State() == Apply(cls, old(State()), op)
    {
      match op {
        case MoveCursorLeft => cursor.MoveLeft(content);
        case MoveCursorRight => cursor.MoveRight(content);
        case MoveCursorUp => cursor.MoveUp(content);
        case MoveCursorDown => cursor.MoveDown(content);
        case MoveWordForward => cursor.MoveWordForward(cls, content);
        case MoveWordBackward => cursor.MoveWordBackward(cls, content);
        case MoveToEndOfWord => cursor.MoveToEndOfWord(cls, content);
        case MoveToLineStart => cursor.MoveToColumn(0);
        case MoveToLineEnd =>
          var row := cursor.position.row;
          var lineLen := if row < |content| then |content[row]| else 0;
          cursor.MoveToColumn(lineLen);
        case MoveToFileStart => cursor.MoveToPosition(Position(0, 0));
        case MoveToFileEnd =>
          var lastRow := if |content| > 0 then |content| - 1 else 0;
          var lastCol := if lastRow < |content| then |content[lastRow]| else 0;
          cursor.MoveToPosition(Position(lastRow, lastCol));
        case InsertChar(c) => InsertChar(c);
        case InsertNewline => InsertNewline();
        case InsertTab => InsertChar('\t');
        case Backspace => Backspace();
        case DeleteChar => DeleteChar();
        case DeleteLine => DeleteLine();
        case InsertLineBelow =>
          var row := cursor.position.row;
          content := content[..row + 1] + [[]] + content[row + 1..];
          cursor.MoveDown(content);
          cursor.MoveToColumn(0);
          modified := true;
        case InsertLineAbove =>
          var row := cursor.position.row;
          content := content[..row] + [[]] + content[row..];
          cursor.MoveToColumn(0);
          modified := true;
        case Undo => Undo();
        case Redo => Redo();
      }
    }
  }

  /** `BufferManager`: its hash map owns the buffers, so a buffer stored in
      it is a value, and a change made through `current_buffer_mut` writes
      a new value back under the current id. */
  class BufferManager {
    var buffers: map<nat, BufferState>
    var currentId: Option<nat>
    var nextId: nat

    function Abs(): ManagerState
      reads this
    {
      ManagerState(buffers, currentId, nextId)
    }

    /** Every buffer is stored under its own id, below the next id, and the
        current id names a stored buffer. */
    predicate Valid()
      reads this
    {
      WellFormed(Abs())
    }

    /** `BufferManager::new`. */
    constructor ()
      ensures Valid() && Abs() == EmptyManager
    {
      buffers := map[];
      currentId := None;
      nextId := 1;
    }

    /** `current_buffer`: the buffer stored under the current id, if any. */
    function CurrentBuffer(): (r: Option<BufferState>)
      reads this
      ensures r.Some? <==> currentId.Some? && currentId.value in buffers
      ensures r.Some? ==> r.value == buffers[currentId.value] && (Valid() ==> r.value.id == currentId.value)
    {
      if currentId.Some? && currentId.value in buffers then Some(buffers[currentId.value]) else None
    }

    method CreateBuffer(name: Line) returns (id: nat)
      requires Valid()
      modifies this
      ensures Valid() && (Abs(), id) == Management.CreateBuffer(old(Abs()), name)
    {
      id := nextId;
      nextId := nextId + 1;
      var b := new Buffer(id, name);
      buffers := buffers[id := b.State()];
      currentId := Some(id);
    }

    method OpenFile(path: Line, reply: ReadReply) returns (r: Result<nat, EditorError>)
      requires Valid()
      modifies this
      ensures Valid()
      ensures Abs() == Management.OpenFile(old(Abs()), path, reply).0
      ensures r == Management.OpenFile(old(Abs()), path, reply).1
    {
      OpenFileUsesUpId(Abs(), path, reply);
      var id := nextId;
      nextId := nextId + 1;
      if reply.ReadFailed? {
        return Err(IoError);
      }
      var lines := if reply.Missing? then [[]] else Lines(reply.text);
      var b := new Buffer.Loaded(id, path, lines);
      var loaded := b.State();
      assert FromFile(id, path, reply) == Ok(loaded);
      buffers := buffers[id := loaded];
      currentId := Some(id);
      r := Ok(id);
    }

    method SwitchBuffer(id: nat) returns (switched: bool)
      requires Valid()
      modifies this
      ensures Valid() && (Abs(), switched) == Management.SwitchBuffer(old(Abs()), id)
    {
      if id in buffers {
        currentId := Some(id);
        switched := true;
      } else {
        switched := false;
      }
    }

    method CloseBuffer(id: nat) returns (r: Result<(), EditorError>)
      requires Valid()
      modifies this
      ensures Valid() && Closes(old(Abs()), id, Abs(), r)
    {
      if id in buffers && buffers[id].modified {
        return Err(UnsavedChanges);
      }
      buffers := buffers - {id};
      if currentId == Some(id) {
        if buffers == map[] {
          currentId := None;
        } else {
          var k :| k in buffers;
          currentId := Some(k);
        }
      }
      r := Ok(());
    }

    /** Writes back the current buffer after a change made through
        `current_buffer_mut`; the buffer keeps its id. */
    method UpdateCurrent(b: BufferState)
      requires Valid() && CurrentBuffer().Some? && b.id == CurrentBuffer().value.id
      modifies this
      ensures Valid() && Abs() == WithCurrent(old(Abs()), b)
    {
      buffers := buffers[currentId.value := b];
    }

    method SaveCurrent(writeOk: bool) returns (r: Result<(), EditorError>)
      requires Valid()
      modifies this
      ensures Valid()
      ensures Abs() == Management.SaveCurrent(old(Abs()), writeOk).0
      ensures r == Management.SaveCurrent(old(Abs()), writeOk).1
    {
      var current := CurrentBuffer();
      if current.None? {
        return Err(NoCurrentBuffer);
      }
      var saved := Save(current.value, writeOk);
      UpdateCurrent(saved.0);
      r := saved.1;
    }

    /** Performs one forwarding operation on the current buffer, as every
        forwarding method of `BufferManager` does. */
    method Run(cls: Classifier, op: Op)
      requires Valid() && CanPerform(Abs(), op)
      modifies this
      ensures Valid() && Abs() == Perform(cls, old(Abs()), op)
    {
      var current := CurrentBuffer();
      if current.None? {
        return;
      }
      ApplyKeepsIdentity(cls, current.value, op);
      UpdateCurrent(Apply(cls, current.value, op));
    }
  }
}
