/** The state of one buffer of src/core/buffer.rs as a value, and every
    operation on it as a function: the character and line edits, the
    snapshot undo history, and saving and loading through an abstract file
    system. The `Buffer` class of module TextBuffer performs these in place. */
module Editing {
  import opened Basics
  import opened Text
  import opened CursorMotion

  /** A whole copy of the buffer's lines, as kept on the undo and redo stacks. */
  type Snapshot = seq<Line>

  /** `push_undo` drops the oldest snapshot when the stack holds more than
      this many before the push, so the stack reaches `UndoLimit + 1`. */
  const UndoLimit: nat := 100

  datatype EditorError =
    | NoFilePath       // "No file path set"
    | IoError          // a failed read or write
    | UnsavedChanges   // "Buffer has unsaved changes"
    | NoCurrentBuffer  // "No current buffer"

  datatype BufferState = BufferState(
    id: nat,
    path: Option<Line>,
    content: seq<Line>,
    cursor: CursorState,
    modified: bool,
    name: Line,
    undoStack: seq<Snapshot>,
    redoStack: seq<Snapshot>)

  /** `Buffer::new`: one empty line, no path, empty history. */
  function NewBuffer(id: nat, name: Line): BufferState {
    BufferState(id, None, [[]], Origin, false, name, [], [])
  }

  // ---------------------------------------------------------------------
  // Loading and saving (the file system is a parameter)
  // ---------------------------------------------------------------------

  /** What reading a path yields: the path does not exist, the read fails,
      or the file's text. */
  datatype ReadReply = Missing | ReadFailed | Contents(text: seq<char>)

  /** The path with its trailing '/' characters removed. */
  function TrimTrailingSlashes(path: Line): (r: Line)
    ensures |r| <= |path| && r == path[..|r|]
    ensures r == [] || r[|r| - 1] != '/'
    ensures forall i | |r| <= i < |path| :: path[i] == '/'
  {
    if |path| > 0 && path[|path| - 1] == '/' then TrimTrailingSlashes(path[..|path| - 1]) else path
  }

  /** The part of `path` after its last '/'. */
  function AfterLastSlash(path: Line): (r: Line)
    ensures |r| <= |path| && r == path[|path| - |r|..]
    ensures '/' !in r
    ensures |r| < |path| ==> path[|path| - |r| - 1] == '/'
  {
    if |path| == 0 || path[|path| - 1] == '/' then []
    else AfterLastSlash(path[..|path| - 1]) + [path[|path| - 1]]
  }

  const Untitled: Line := "untitled"

  /** `path.file_name()` falling back to "untitled": the last component of
      the path, which is absent for a path that is empty, is "/" or ends in
      ".." (or, in this model, "."). */
  function FileName(path: Line): (r: Line)
    ensures r != [] && '/' !in r
    ensures r == Untitled ||
            (var t := TrimTrailingSlashes(path);
             |r| <= |t| && t[|t| - |r|..] == r && (|r| == |t| || t[|t| - |r| - 1] == '/'))
    ensures r != Untitled ==> r != "." && r != ".."
  {
    assert forall i | 0 <= i < |Untitled| :: Untitled[i] != '/';
    var last := AfterLastSlash(TrimTrailingSlashes(path));
    if last == [] || last == "." || last == ".." then Untitled else last
  }

  /** `Buffer::from_file`: a missing path gives one empty line, an existing
      one the `lines()` of its text; a failed read is an error. */
  function FromFile(id: nat, path: Line, reply: ReadReply): Result<BufferState, EditorError> {
    match reply
    case ReadFailed => Err(IoError)
    case Missing => Ok(BufferState(id, Some(path), [[]], Origin, false, FileName(path), [], []))
    case Contents(text) => Ok(BufferState(id, Some(path), Lines(text), Origin, false, FileName(path), [], []))
  }

  /** `content.join("\n")`, the text `save` and `save_as` write. */
  function JoinLines(content: seq<Line>): seq<char> {
    if |content| == 0 then []
    else if |content| == 1 then content[0]
    else content[0] + ['\n'] + JoinLines(content[1..])
  }

  /** `save`: needs a path; `writeOk` is whether the write succeeded. */
  function Save(b: BufferState, writeOk: bool): (r: (BufferState, Result<(), EditorError>))
    ensures r.1.Err? ==> r.0 == b
  {
    if b.path.None? then (b, Err(NoFilePath))
    else if !writeOk then (b, Err(IoError))
    else (b.(modified := false), Ok(()))
  }

  /** `save_as`: on a successful write the buffer takes the new path. */
  function SaveAs(b: BufferState, path: Line, writeOk: bool): (r: (BufferState, Result<(), EditorError>))
    ensures r.1.Err? ==> r.0 == b
  {
    if !writeOk then (b, Err(IoError))
    else (b.(path := Some(path), modified := false), Ok(()))
  }

  // ---------------------------------------------------------------------
  // Undo history
  // ---------------------------------------------------------------------

  /** `push_undo`: snapshot the content (evicting the oldest snapshot first
      when the stack is over the limit) and forget the redo history. */
  function PushUndo(b: BufferState): (r: BufferState)
    ensures r == b.(undoStack := r.undoStack, redoStack := [])
    ensures |r.undoStack| > 0 && r.undoStack[|r.undoStack| - 1] == b.content
    ensures |r.undoStack| == if |b.undoStack| > UndoLimit then |b.undoStack| else |b.undoStack| + 1
    ensures r.undoStack[..|r.undoStack| - 1] == b.undoStack[|b.undoStack| - (|r.undoStack| - 1)..]
  {
    var kept := if |b.undoStack| > UndoLimit then b.undoStack[1..] else b.undoStack;
    b.(undoStack := kept + [b.content], redoStack := [])
  }

  /** `undo`: the newest snapshot becomes the content and the replaced
      content goes onto the redo stack. The cursor is not touched. */
  function Undo(b: BufferState): BufferState {
    if |b.undoStack| == 0 then b
    else
      var n := |b.undoStack| - 1;
      b.(content := b.undoStack[n], undoStack := b.undoStack[..n],
         redoStack := b.redoStack + [b.content], modified := true)
  }

  /** `redo`: the mirror image of `undo`; the undo stack is not bounded here. */
  function Redo(b: BufferState): BufferState {
    if |b.redoStack| == 0 then b
    else
      var n := |b.redoStack| - 1;
      b.(content := b.redoStack[n], redoStack := b.redoStack[..n],
         undoStack := b.undoStack + [b.content], modified := true)
  }

  // ---------------------------------------------------------------------
  // Edits. Each one records a snapshot first, even when it then changes
  // nothing.
  // ---------------------------------------------------------------------

  /** The character index the source's `char_indices().nth(col)` lookup
      falls back from: a column past the end means the end of the line. */
  function Cut(line: Line, col: nat): (k: nat)
    ensures k <= |line| && (k == col || k == |line|) && k <= col
  {
    if col < |line| then col else |line|
  }

  /** `insert_char`: insert at the cursor, then `move_right` over the new
      content. Nothing but the snapshot happens when the cursor row does not
      exist. */
  function InsertChar(b: BufferState, c: char): BufferState {
    var u := PushUndo(b);
    var p := b.cursor.position;
    if p.row < |b.content| then
      var line := b.content[p.row];
      var k := Cut(line, p.col);
      var content := b.content[p.row := line[..k] + [c] + line[k..]];
      u.(content := content, cursor := Right(content, b.cursor), modified := true)
    else u
  }

  /** `insert_newline`: split the cursor line at the cursor, then
      `move_down` and `move_to_column(0)`. */
  function InsertNewline(b: BufferState): BufferState {
    var u := PushUndo(b);
    var p := b.cursor.position;
    if p.row < |b.content| then
      var line := b.content[p.row];
      var k := Cut(line, p.col);
      var content := b.content[..p.row] + [line[..k], line[k..]] + b.content[p.row + 1..];
      u.(content := content, cursor := ToColumn(Down(content, b.cursor), 0), modified := true)
    else u
  }

  /** The indexing in `backspace` panics unless the cursor row exists or the
      cursor is at (0, 0). */
  predicate CanBackspace(b: BufferState) {
    b.cursor.position.row < |b.content| || b.cursor.position == Position(0, 0)
  }

  /** `backspace`: delete the character left of the cursor and `move_left`,
      or at column 0 append the line to the previous one and go to the old
      end of that line. */
  function Backspace(b: BufferState): BufferState
    requires CanBackspace(b)
  {
    var u := PushUndo(b);
    var p := b.cursor.position;
    if p.col > 0 then
      var line := b.content[p.row];
      if p.col - 1 < |line| then
        var content := b.content[p.row := line[..p.col - 1] + line[p.col..]];
        u.(content := content, cursor := Left(content, b.cursor), modified := true)
      else u
    else if p.row > 0 then
      var prev := b.content[p.row - 1];
      var content := b.content[..p.row - 1] + [prev + b.content[p.row]] + b.content[p.row + 1..];
      u.(content := content, cursor := ToColumn(Up(content, b.cursor), |prev|), modified := true)
    else u
  }

  /** `delete_char`: delete the character under the cursor, or at the end of
      the line join the next line; the cursor does not move. */
  function DeleteChar(b: BufferState): BufferState {
    var u := PushUndo(b);
    var p := b.cursor.position;
    if p.row < |b.content| then
      var line := b.content[p.row];
      if p.col < |line| then
        u.(content := b.content[p.row := line[..p.col] + line[p.col + 1..]], modified := true)
      else if p.row + 1 < |b.content| then
        u.(content := b.content[..p.row] + [line + b.content[p.row + 1]] + b.content[p.row + 2..], modified := true)
      else u
    else u
  }

  /** `Vec::remove` in `delete_line` panics unless the cursor row exists
      (it is not reached for fewer than two lines). */
  predicate CanDeleteLine(b: BufferState) {
    |b.content| <= 1 || b.cursor.position.row < |b.content|
  }

  /** `delete_line`: a single line is emptied; otherwise the cursor row is
      removed and, if it was the last, the cursor moves up; the cursor then
      goes to column 0. */
  function DeleteLine(b: BufferState): BufferState
    requires CanDeleteLine(b)
  {
    var u := PushUndo(b);
    var p := b.cursor.position;
    if |b.content| == 0 then u
    else if |b.content| == 1 then
      u.(content := [[]], cursor := ToColumn(b.cursor, 0), modified := true)
    else
      var content := b.content[..p.row] + b.content[p.row + 1..];
      var c := if p.row >= |content| && p.row > 0 then Up(content, b.cursor) else b.cursor;
      u.(content := content, cursor := ToColumn(c, 0), modified := true)
  }

  // ---------------------------------------------------------------------
  // The two line insertions BufferManager performs on the current buffer's
  // fields directly; they record no snapshot.
  // ---------------------------------------------------------------------

  /** `Vec::insert(row + 1, ..)` panics unless the cursor row exists. */
  predicate CanInsertLineBelow(b: BufferState) {
    b.cursor.position.row < |b.content|
  }

  /** `insert_line_below`: an empty line after the cursor row, then
      `move_down` and `move_to_column(0)`. */
  function InsertLineBelow(b: BufferState): BufferState
    requires CanInsertLineBelow(b)
  {
    var row := b.cursor.position.row;
    var content := b.content[..row + 1] + [[]] + b.content[row + 1..];
    b.(content := content, cursor := ToColumn(Down(content, b.cursor), 0), modified := true)
  }

  /** `Vec::insert(row, ..)` panics when the row is past the end. */
  predicate CanInsertLineAbove(b: BufferState) {
    b.cursor.position.row <= |b.content|
  }

  /** `insert_line_above`: an empty line at the cursor row, then
      `move_to_column(0)`, which leaves the cursor on the new line. */
  function InsertLineAbove(b: BufferState): BufferState
    requires CanInsertLineAbove(b)
  {
    var row := b.cursor.position.row;
    var content := b.content[..row] + [[]] + b.content[row..];
    b.(content := content, cursor := ToColumn(b.cursor, 0), modified := true)
  }
}
