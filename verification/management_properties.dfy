/** What `BufferManager` of src/core/buffer.rs promises: ids are handed out
    once and in order, the current id always names a buffer, a modified
    buffer is never closed, and forwarded operations touch the current
    buffer only. */
module ManagementProperties {
  import opened Basics
  import opened Text
  import opened CursorMotion
  import opened Editing
  import opened Management
  import opened EditingProperties
  import CursorProperties

  lemma EmptyManagerIsWellFormed()
    ensures WellFormed(EmptyManager) && Current(EmptyManager).None?
  {
  }

  /** `create_buffer` returns the old next id, which no buffer had, bumps the
      counter, makes the new empty buffer current and keeps every other
      buffer. */
  lemma CreateBufferHandsOutNextId(m: ManagerState, name: Line)
    requires WellFormed(m)
    ensures var (after, id) := CreateBuffer(m, name);
            id == m.nextId && id !in m.buffers && after.nextId == id + 1 &&
            after.current == Some(id) && Current(after) == Some(NewBuffer(id, name)) &&
            after.buffers.Keys == m.buffers.Keys + {id} &&
            (forall k | k in m.buffers :: after.buffers[k] == m.buffers[k]) &&
            WellFormed(after)
  {
  }

  /** `open_file` uses up an id whether or not the read succeeds; a failed
      read changes nothing else, a successful one adds the buffer (one empty
      line for a missing path) and makes it current. */
  lemma OpenFileUsesUpId(m: ManagerState, path: Line, reply: ReadReply)
    requires WellFormed(m)
    ensures var (after, r) := OpenFile(m, path, reply);
            after.nextId == m.nextId + 1 && WellFormed(after) &&
            (r.Err? <==> reply.ReadFailed?) &&
            (r.Err? ==> after.buffers == m.buffers && after.current == m.current) &&
            (r.Ok? ==> r.value == m.nextId && r.value !in m.buffers && after.current == Some(r.value) &&
                       after.buffers == m.buffers[r.value := after.buffers[r.value]] &&
                       after.buffers[r.value].path == Some(path) && !after.buffers[r.value].modified &&
                       (reply.Missing? ==> after.buffers[r.value].content == [[]]))
  {
  }

  /** `switch_buffer` succeeds exactly for a stored id; otherwise nothing
      changes. */
  lemma SwitchBufferIffStored(m: ManagerState, id: nat)
    requires WellFormed(m)
    ensures var (after, switched) := SwitchBuffer(m, id);
            (switched <==> id in m.buffers) &&
            (switched ==> after.buffers == m.buffers && Current(after) == Some(m.buffers[id])) &&
            (!switched ==> after == m) &&
            WellFormed(after)
  {
  }

  /** Every outcome of `close_buffer` keeps the manager well formed; a
      refused close is exactly one of a modified buffer; after a successful
      close the id can no longer be switched to; and no modified buffer is
      ever dropped. */
  lemma CloseBufferOutcomes(m: ManagerState, id: nat, after: ManagerState, r: Result<(), EditorError>)
    requires WellFormed(m) && Closes(m, id, after, r)
    ensures WellFormed(after)
    ensures r.Err? <==> id in m.buffers && m.buffers[id].modified
    ensures r.Err? ==> after == m
    ensures r.Ok? ==> id !in after.buffers && !SwitchBuffer(after, id).1
    ensures forall k | k in m.buffers && m.buffers[k].modified :: k in after.buffers && after.buffers[k] == m.buffers[k]
  {
  }

  /** Closing the only buffer, when it is current and unmodified, leaves no
      current buffer. */
  lemma ClosingLastBufferLeavesNoCurrent(m: ManagerState, id: nat, after: ManagerState, r: Result<(), EditorError>)
    requires m.buffers.Keys == {id} && m.current == Some(id) && !m.buffers[id].modified
    requires Closes(m, id, after, r)
    ensures r.Ok? && after.buffers == map[] && after.current.None?
  {
  }

  /** `save_current` without a current buffer fails with "No current buffer"
      and changes nothing; with one, it saves that buffer only. */
  lemma SaveCurrentOutcomes(m: ManagerState, writeOk: bool)
    requires WellFormed(m)
    ensures var (after, r) := SaveCurrent(m, writeOk);
            WellFormed(after) && after.current == m.current && after.nextId == m.nextId &&
            (Current(m).None? ==> after == m && r == Err(NoCurrentBuffer)) &&
            (Current(m).Some? ==> r == Save(Current(m).value, writeOk).1 &&
                                  Current(after) == Some(Save(Current(m).value, writeOk).0))
  {
  }

  /** No forwarded operation changes a buffer's id, path or name. */
  lemma ApplyKeepsIdentity(cls: Classifier, b: BufferState, op: Op)
    requires Allowed(b, op)
    ensures var r := Apply(cls, b, op);
            r.id == b.id && r.path == b.path && r.name == b.name
  {
    // Split by operation: the edits are checked one at a time.
    match op
    case InsertChar(c) =>
    case InsertNewline =>
    case InsertTab =>
    case Backspace =>
    case DeleteChar =>
    case DeleteLine =>
    case InsertLineBelow =>
    case InsertLineAbove =>
    case Undo =>
    case Redo =>
    case _ =>
  }

  /** A forwarded operation changes the current buffer only, and nothing at
      all when there is no current buffer. */
  lemma PerformTouchesOnlyCurrent(cls: Classifier, m: ManagerState, op: Op)
    requires WellFormed(m) && CanPerform(m, op)
    ensures var after := Perform(cls, m, op);
            WellFormed(after) && after.current == m.current && after.nextId == m.nextId &&
            after.buffers.Keys == m.buffers.Keys &&
            (forall k | k in m.buffers && Some(k) != m.current :: after.buffers[k] == m.buffers[k]) &&
            (Current(m).None? ==> after == m)
  {
    if Current(m).Some? {
      ApplyKeepsIdentity(cls, Current(m).value, op);
    }
  }

  /** The motion operations move the cursor only: the lines, the history and
      the modified flag stay as they are. */
  lemma MotionsKeepText(cls: Classifier, b: BufferState, op: Op)
    requires op.MoveCursorLeft? || op.MoveCursorRight? || op.MoveCursorUp? || op.MoveCursorDown? ||
             op.MoveWordForward? || op.MoveWordBackward? || op.MoveToEndOfWord? ||
             op.MoveToLineStart? || op.MoveToLineEnd? || op.MoveToFileStart? || op.MoveToFileEnd?
    ensures Apply(cls, b, op) == b.(cursor := Apply(cls, b, op).cursor)
  {
  }

  /** `$` goes to the end of the cursor line and `G` to the end of the last
      line. */
  lemma LineAndFileEnd(cls: Classifier, b: BufferState)
    requires Sound(b)
    ensures var p := Apply(cls, b, MoveToLineEnd).cursor.position;
            p.row == b.cursor.position.row && p.col == |b.content[p.row]|
    ensures var p := Apply(cls, b, MoveToFileEnd).cursor.position;
            p.row == |b.content| - 1 && p.col == |b.content[p.row]|
  {
  }

  /** Every forwarded operation but `undo`/`redo` keeps the cursor inside a
      non-empty text. */
  lemma OperationsKeepCursorInText(cls: Classifier, b: BufferState, op: Op)
    requires Sound(b) && !op.Undo? && !op.Redo?
    ensures Allowed(b, op) && Sound(Apply(cls, b, op))
  {
    match op {
      case InsertChar(c) => EditsKeepCursorInText(b, c);
      case InsertTab => EditsKeepCursorInText(b, '\t');
      case InsertNewline => EditsKeepCursorInText(b, ' ');
      case Backspace => EditsKeepCursorInText(b, ' ');
      case DeleteChar => EditsKeepCursorInText(b, ' ');
      case DeleteLine => EditsKeepCursorInText(b, ' ');
      case InsertLineBelow => EditsKeepCursorInText(b, ' ');
      case InsertLineAbove => EditsKeepCursorInText(b, ' ');
      case _ => CursorProperties.MotionsPreserveBounds(cls, b.content, b.cursor);
    }
  }
}
