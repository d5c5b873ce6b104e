/** The `BufferManager` of src/core/buffer.rs as a value: a map from buffer
    id to buffer, the id of the current buffer and the next id to hand out;
    and its operations as functions (closing a buffer as a relation, because
    the new current buffer is whichever key a hash map yields first). */
module Management {
  import opened Basics
  import opened Text
  import opened CursorMotion
  import opened Editing

  datatype ManagerState = ManagerState(buffers: map<nat, BufferState>, current: Option<nat>, nextId: nat)

  /** `BufferManager::new`: no buffer, ids start at 1. */
  const EmptyManager := ManagerState(map[], None, 1)

  /** Every buffer is stored under its own id, every id is below the next
      one to hand out, and the current id names a stored buffer. */
  predicate WellFormed(m: ManagerState) {
    (forall id | id in m.buffers :: m.buffers[id].id == id && id < m.nextId) &&
    (m.current.Some? ==> m.current.value in m.buffers)
  }

  /** `current_buffer`. */
  function Current(m: ManagerState): Option<BufferState> {
    if m.current.Some? && m.current.value in m.buffers then Some(m.buffers[m.current.value]) else None
  }

  /** Replaces the current buffer (when there is one). */
  function WithCurrent(m: ManagerState, b: BufferState): ManagerState {
    if m.current.Some? && m.current.value in m.buffers
    then m.(buffers := m.buffers[m.current.value := b])
    else m
  }

  /** `create_buffer`: a new empty buffer under the next id, made current;
      returns that id. */
  function CreateBuffer(m: ManagerState, name: Line): (ManagerState, nat) {
    var id := m.nextId;
    (ManagerState(m.buffers[id := NewBuffer(id, name)], Some(id), id + 1), id)
  }

  /** `open_file`: the id is taken before the file is read, so a failed
      read still uses it up. */
  function OpenFile(m: ManagerState, path: Line, reply: ReadReply): (ManagerState, Result<nat, EditorError>) {
    var id := m.nextId;
    match FromFile(id, path, reply)
    case Err(e) => (m.(nextId := id + 1), Err(e))
    case Ok(b) => (ManagerState(m.buffers[id := b], Some(id), id + 1), Ok(id))
  }

  /** `switch_buffer`. */
  function SwitchBuffer(m: ManagerState, id: nat): (ManagerState, bool) {
    if id in m.buffers then (m.(current := Some(id)), true) else (m, false)
  }

  /** `close_buffer(id)` can end in `after` with outcome `r`: a modified
      buffer is refused; otherwise the id is removed (absent or not) and, if
      it was current, any remaining buffer becomes current, or none when no
      buffer is left. */
  predicate Closes(m: ManagerState, id: nat, after: ManagerState, r: Result<(), EditorError>) {
    if id in m.buffers && m.buffers[id].modified then
      after == m && r == Err(UnsavedChanges)
    else
      r == Ok(()) && after.buffers == m.buffers - {id} && after.nextId == m.nextId &&
      if m.current == Some(id) then
        (after.current.None? <==> after.buffers == map[]) &&
        (after.current.Some? ==> after.current.value in after.buffers)
      else
        after.current == m.current
  }

  /** `save_current`. */
  function SaveCurrent(m: ManagerState, writeOk: bool): (ManagerState, Result<(), EditorError>) {
    match Current(m)
    case None => (m, Err(NoCurrentBuffer))
    case Some(b) =>
      var saved := Save(b, writeOk);
      (WithCurrent(m, saved.0), saved.1)
  }

  // ---------------------------------------------------------------------
  // The operations BufferManager forwards to the current buffer
  // ---------------------------------------------------------------------

  /** One forwarding method of `BufferManager`, plus the `move_to_end_of_word`
      the `e` key performs on the current buffer's cursor. */
  datatype Op =
    | MoveCursorLeft | MoveCursorRight | MoveCursorUp | MoveCursorDown
    | MoveWordForward | MoveWordBackward | MoveToEndOfWord
    | MoveToLineStart | MoveToLineEnd | MoveToFileStart | MoveToFileEnd
    | InsertChar(c: char) | InsertNewline | InsertTab
    | Backspace | DeleteChar | DeleteLine
    | InsertLineBelow | InsertLineAbove
    | Undo | Redo

  /** The operation does not panic on this buffer. */
  predicate Allowed(b: BufferState, op: Op) {
    match op
    case Backspace => CanBackspace(b)
    case DeleteLine => CanDeleteLine(b)
    case InsertLineBelow => CanInsertLineBelow(b)
    case InsertLineAbove => CanInsertLineAbove(b)
    case _ => true
  }

  /** The last row and its length, as `move_to_file_end` computes them. */
  function FileEnd(content: seq<Line>): Position {
    var last := if |content| > 0 then |content| - 1 else 0;
    Position(last, LineLen(content, last))
  }

  /** What the operation does to one buffer. */
  function Apply(cls: Classifier, b: BufferState, op: Op): BufferState
    requires Allowed(b, op)
  {
    match op
    case MoveCursorLeft => b.(cursor := Left(b.content, b.cursor))
    case MoveCursorRight => b.(cursor := Right(b.content, b.cursor))
    case MoveCursorUp => b.(cursor := Up(b.content, b.cursor))
    case MoveCursorDown => b.(cursor := Down(b.content, b.cursor))
    case MoveWordForward => b.(cursor := WordForward(cls, b.content, b.cursor))
    case MoveWordBackward => b.(cursor := WordBackward(cls, b.content, b.cursor))
    case MoveToEndOfWord => b.(cursor := EndOfWord(cls, b.content, b.cursor))
    case MoveToLineStart => b.(cursor := ToColumn(b.cursor, 0))
    case MoveToLineEnd => b.(cursor := ToColumn(b.cursor, LineLen(b.content, b.cursor.position.row)))
    case MoveToFileStart => b.(cursor := ToPosition(Position(0, 0)))
    case MoveToFileEnd => b.(cursor := ToPosition(FileEnd(b.content)))
    case InsertChar(c) => Editing.InsertChar(b, c)
    case InsertNewline => Editing.InsertNewline(b)
    case InsertTab => Editing.InsertChar(b, '\t')
    case Backspace => Editing.Backspace(b)
    case DeleteChar => Editing.DeleteChar(b)
    case DeleteLine => Editing.DeleteLine(b)
    case InsertLineBelow => Editing.InsertLineBelow(b)
    case InsertLineAbove => Editing.InsertLineAbove(b)
    case Undo => Editing.Undo(b)
    case Redo => Editing.Redo(b)
  }

  /** The operation does not panic on the current buffer, if any. */
  predicate CanPerform(m: ManagerState, op: Op) {
    Current(m).Some? ==> Allowed(Current(m).value, op)
  }

  /** The forwarding method: apply the operation to the current buffer, or
      do nothing when there is none. */
  function Perform(cls: Classifier, m: ManagerState, op: Op): ManagerState
    requires CanPerform(m, op)
  {
    match Current(m)
    case None => m
    case Some(b) => WithCurrent(m, Apply(cls, b, op))
  }
}
