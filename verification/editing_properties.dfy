/** What the buffer edits of src/core/buffer.rs promise: how each edit
    changes the lines and the cursor, that backspace undoes typing, that the
    cursor stays inside the text, and how the snapshot history behaves. */
module EditingProperties {
  import opened Basics
  import opened Text
  import opened CursorMotion
  import opened Editing

  /** The cursor is inside a non-empty text. */
  predicate Sound(b: BufferState) {
    InBounds(b.content, b.cursor.position)
  }

  /** The edit recorded the content before it as the newest snapshot and
      cleared the redo history. */
  predicate Recorded(before: BufferState, after: BufferState) {
    after.undoStack == PushUndo(before).undoStack && after.redoStack == []
  }

  // ---------------------------------------------------------------------
  // Effects of each edit
  // ---------------------------------------------------------------------

  /** `insert_char` puts the character at the cursor, leaves the other lines
      alone and moves one column right. */
  lemma InsertCharInsertsAtCursor(b: BufferState, c: char)
    requires Sound(b)
    ensures var p := b.cursor.position;
            var line := b.content[p.row];
            var r := InsertChar(b, c);
            |r.content| == |b.content| &&
            r.content[p.row] == line[..p.col] + [c] + line[p.col..] &&
            (forall i | 0 <= i < |b.content| && i != p.row :: r.content[i] == b.content[i]) &&
            r.cursor == ToPosition(Position(p.row, p.col + 1)) &&
            r.modified && Recorded(b, r)
  {
  }

  /** Typing 'X' at the start of "ab" gives "Xab" with the cursor at (0, 1). */
  lemma InsertCharExample()
    ensures var b := NewBuffer(1, "t").(content := ["ab"]);
            var r := InsertChar(b, 'X');
            r.content == ["Xab"] && r.cursor.position == Position(0, 1)
  {
    var b := NewBuffer(1, "t").(content := ["ab"]);
    InsertCharInsertsAtCursor(b, 'X');
    assert "ab"[..0] + ['X'] + "ab"[0..] == "Xab";
  }

  /** `insert_newline` adds one line; the two halves concatenate to the old
      line; the lines before and after are kept; the cursor starts the new
      line. */
  lemma InsertNewlineSplitsLine(b: BufferState)
    requires b.cursor.position.row < |b.content|
    ensures var p := b.cursor.position;
            var r := InsertNewline(b);
            |r.content| == |b.content| + 1 &&
            r.content[p.row] + r.content[p.row + 1] == b.content[p.row] &&
            |r.content[p.row]| == Cut(b.content[p.row], p.col) &&
            r.content[..p.row] == b.content[..p.row] &&
            r.content[p.row + 2..] == b.content[p.row + 1..] &&
            r.cursor == ToPosition(Position(p.row + 1, 0)) &&
            r.modified && Recorded(b, r)
  {
    var p := b.cursor.position;
    var line := b.content[p.row];
    var k := Cut(line, p.col);
    assert line[..k] + line[k..] == line;
  }

  /** `backspace` in the middle of a line deletes the character left of the
      cursor and moves onto its column. */
  lemma BackspaceDeletesLeft(b: BufferState)
    requires Sound(b) && b.cursor.position.col > 0
    ensures var p := b.cursor.position;
            var line := b.content[p.row];
            var r := Backspace(b);
            |r.content| == |b.content| &&
            r.content[p.row] == line[..p.col - 1] + line[p.col..] &&
            (forall i | 0 <= i < |b.content| && i != p.row :: r.content[i] == b.content[i]) &&
            r.cursor == ToPosition(Position(p.row, p.col - 1)) &&
            r.modified && Recorded(b, r)
  {
  }

  /** `backspace` at column 0 appends the line to the previous one and puts
      the cursor where the previous line used to end. */
  lemma BackspaceJoinsLines(b: BufferState)
    requires b.cursor.position.col == 0 && 0 < b.cursor.position.row < |b.content|
    ensures var p := b.cursor.position;
            var r := Backspace(b);
            |r.content| == |b.content| - 1 &&
            r.content[p.row - 1] == b.content[p.row - 1] + b.content[p.row] &&
            r.content[..p.row - 1] == b.content[..p.row - 1] &&
            r.content[p.row..] == b.content[p.row + 1..] &&
            r.cursor == ToPosition(Position(p.row - 1, |b.content[p.row - 1]|)) &&
            r.modified && Recorded(b, r)
  {
  }

  /** `backspace` at (0, 0) only records a snapshot. */
  lemma BackspaceAtOriginKeepsText(b: BufferState)
    requires b.cursor.position == Position(0, 0)
    ensures Backspace(b) == PushUndo(b)
  {
  }

  /** `delete_char` deletes the character under the cursor without moving. */
  lemma DeleteCharDeletesUnderCursor(b: BufferState)
    requires b.cursor.position.row < |b.content|
    requires b.cursor.position.col < |b.content[b.cursor.position.row]|
    ensures var p := b.cursor.position;
            var line := b.content[p.row];
            var r := DeleteChar(b);
            |r.content| == |b.content| &&
            r.content[p.row] == line[..p.col] + line[p.col + 1..] &&
            (forall i | 0 <= i < |b.content| && i != p.row :: r.content[i] == b.content[i]) &&
            r.cursor == b.cursor && r.modified && Recorded(b, r)
  {
  }

  /** `delete_char` at or past the end of a line joins the next line onto
      it; on the last line it changes nothing but the history, and in
      particular does not set `modified`. */
  lemma DeleteCharAtLineEnd(b: BufferState)
    requires b.cursor.position.row < |b.content|
    requires b.cursor.position.col >= |b.content[b.cursor.position.row]|
    ensures var p := b.cursor.position;
            var r := DeleteChar(b);
            r.cursor == b.cursor && Recorded(b, r) &&
            if p.row + 1 < |b.content| then
              |r.content| == |b.content| - 1 &&
              r.content[p.row] == b.content[p.row] + b.content[p.row + 1] &&
              r.content[..p.row] == b.content[..p.row] &&
              r.content[p.row + 1..] == b.content[p.row + 2..] && r.modified
            else
              r.content == b.content && r.modified == b.modified
  {
  }

  /** Forward delete is backspace from one column further right: the same
      lines result, whether inside a line or joining at its end. */
  lemma {:induction false} DeleteCharIsBackspaceFromTheRight(b: BufferState)
    requires Sound(b)
    requires b.cursor.position.col < |b.content[b.cursor.position.row]| ||
             b.cursor.position.row + 1 < |b.content|
    ensures var p := b.cursor.position;
            var next := if p.col < |b.content[p.row]| then Position(p.row, p.col + 1) else Position(p.row + 1, 0);
            DeleteChar(b).content == Backspace(b.(cursor := ToPosition(next))).content
  {
    var p := b.cursor.position;
    if p.col < |b.content[p.row]| {
      var line := b.content[p.row];
      assert line[..p.col + 1 - 1] + line[p.col + 1..] == line[..p.col] + line[p.col + 1..];
    } else {
      assert p.row + 1 + 1 == p.row + 2;
    }
  }

  /** `delete_line` empties a one-line buffer, otherwise removes the cursor
      row and puts the cursor at column 0 of the row that took its place (or
      of the new last row). The text never becomes empty. */
  lemma DeleteLineRemovesRow(b: BufferState)
    requires Sound(b)
    ensures var p := b.cursor.position;
            var r := DeleteLine(b);
            |r.content| > 0 && r.modified && Recorded(b, r) &&
            if |b.content| == 1 then
              r.content == [[]] && r.cursor == ToPosition(Position(p.row, 0))
            else
              r.content == b.content[..p.row] + b.content[p.row + 1..] &&
              r.cursor == ToPosition(Position(if p.row < |b.content| - 1 then p.row else |b.content| - 2, 0))
  {
  }

  /** `insert_line_below` opens an empty line under the cursor and moves
      onto it; `insert_line_above` opens one at the cursor row and stays on
      it. Neither records a snapshot. */
  lemma OpenLineEffects(b: BufferState)
    requires Sound(b)
    ensures var p := b.cursor.position;
            var r := InsertLineBelow(b);
            r.content == b.content[..p.row + 1] + [[]] + b.content[p.row + 1..] &&
            r.cursor == ToPosition(Position(p.row + 1, 0)) && r.modified &&
            r.undoStack == b.undoStack && r.redoStack == b.redoStack
    ensures var p := b.cursor.position;
            var r := InsertLineAbove(b);
            r.content == b.content[..p.row] + [[]] + b.content[p.row..] &&
            r.content[p.row] == [] &&
            r.cursor == ToPosition(Position(p.row, 0)) && r.modified &&
            r.undoStack == b.undoStack && r.redoStack == b.redoStack
  {
  }

  // ---------------------------------------------------------------------
  // Edits that cancel out
  // ---------------------------------------------------------------------

  /** Backspace right after typing a character restores the lines and the
      cursor position. */
  lemma {:induction false} BackspaceUndoesInsertChar(b: BufferState, c: char)
    requires Sound(b)
    ensures var r := Backspace(InsertChar(b, c));
            r.content == b.content && r.cursor.position == b.cursor.position
  {
    var p := b.cursor.position;
    var line := b.content[p.row];
    var typed := line[..p.col] + [c] + line[p.col..];
    InsertCharInsertsAtCursor(b, c);
    assert typed[..p.col] + typed[p.col + 1..] == line;
    assert b.content[p.row := line] == b.content;
  }

  /** Backspace right after splitting a line joins it again and returns the
      cursor to where it was. */
  lemma {:induction false} BackspaceUndoesInsertNewline(b: BufferState)
    requires Sound(b)
    ensures var r := Backspace(InsertNewline(b));
            r.content == b.content && r.cursor.position == b.cursor.position
  {
    var m := InsertNewline(b);
    InsertNewlineSplitsLine(b);
    BackspaceJoinsLines(m);
    RejoinSplitLine(b.content, m.content, Backspace(m).content, b.cursor.position.row);
  }

  /** Joining back the two halves of a split line gives the lines before the
      split. */
  lemma RejoinSplitLine(lines: seq<Line>, split: seq<Line>, joined: seq<Line>, row: nat)
    requires row < |lines| && |split| == |lines| + 1
    requires split[..row] == lines[..row] && split[row + 2..] == lines[row + 1..]
    requires split[row] + split[row + 1] == lines[row]
    requires |joined| == |split| - 1 && joined[row] == split[row] + split[row + 1]
    requires joined[..row] == split[..row] && joined[row + 1..] == split[row + 2..]
    ensures joined == lines
  {
    forall k | 0 <= k < |lines|
      ensures joined[k] == lines[k]
    {
      if k < row {
        assert joined[k] == joined[..row][k] && lines[k] == lines[..row][k];
      } else if k > row {
        assert joined[k] == joined[row + 1..][k - row - 1] && lines[k] == lines[row + 1..][k - row - 1];
      }
    }
  }

  // ---------------------------------------------------------------------
  // The cursor stays inside the text
  // ---------------------------------------------------------------------

  /** Every edit, and both line insertions, keep a non-empty text with the
      cursor on it. */
  lemma EditsKeepCursorInText(b: BufferState, c: char)
    requires Sound(b)
    ensures Sound(InsertChar(b, c))
    ensures Sound(InsertNewline(b))
    ensures Sound(Backspace(b))
    ensures Sound(DeleteChar(b))
    ensures Sound(DeleteLine(b))
    ensures Sound(InsertLineBelow(b))
    ensures Sound(InsertLineAbove(b))
  {
    if b.cursor.position.col == 0 && b.cursor.position.row > 0 {
      BackspaceJoinsLines(b);
    }
    DeleteLineRemovesRow(b);
  }

  /** `undo` replaces the lines without moving the cursor, so it can leave
      the cursor outside the text: split "a" at its end and undo, and the
      cursor is on row 1 of a one-line text. The same holds for `redo`. */
  lemma UndoCanLeaveCursorOutside()
    ensures var b := NewBuffer(1, "t").(content := ["a"], cursor := ToPosition(Position(0, 1)));
            Sound(b) && Sound(InsertNewline(b)) && !Sound(Undo(InsertNewline(b)))
    ensures var b := NewBuffer(1, "t").(content := ["ab"], cursor := ToPosition(Position(0, 2)));
            var u := Undo(Backspace(b));
            var moved := u.(cursor := Right(u.content, u.cursor));
            Sound(u) && Sound(moved) && !Sound(Redo(moved))
  {
    var b := NewBuffer(1, "t").(content := ["ab"], cursor := ToPosition(Position(0, 2)));
    BackspaceDeletesLeft(b);
    assert "ab"[..1] + "ab"[2..] == "a";
  }

  // ---------------------------------------------------------------------
  // Snapshot history
  // ---------------------------------------------------------------------

  /** All five edits record the content before them, even when they then
      change nothing; the line insertions leave the history alone. */
  lemma EditsRecordSnapshot(b: BufferState, c: char)
    ensures Recorded(b, InsertChar(b, c))
    ensures Recorded(b, InsertNewline(b))
    ensures CanBackspace(b) ==> Recorded(b, Backspace(b))
    ensures Recorded(b, DeleteChar(b))
    ensures CanDeleteLine(b) ==> Recorded(b, DeleteLine(b))
    ensures CanInsertLineBelow(b) ==> InsertLineBelow(b).undoStack == b.undoStack && InsertLineBelow(b).redoStack == b.redoStack
    ensures CanInsertLineAbove(b) ==> InsertLineAbove(b).undoStack == b.undoStack && InsertLineAbove(b).redoStack == b.redoStack
  {
  }

  /** The history holds at most `UndoLimit + 1` snapshots in the two stacks
      together. */
  predicate HistoryBounded(b: BufferState) {
    |b.undoStack| + |b.redoStack| <= UndoLimit + 1
  }

  /** Every operation keeps the history bounded, so the undo stack never
      holds more than 101 snapshots. */
  lemma HistoryStaysBounded(b: BufferState, c: char)
    requires HistoryBounded(b)
    ensures HistoryBounded(InsertChar(b, c)) && HistoryBounded(InsertNewline(b)) && HistoryBounded(DeleteChar(b))
    ensures CanBackspace(b) ==> HistoryBounded(Backspace(b))
    ensures CanDeleteLine(b) ==> HistoryBounded(DeleteLine(b))
    ensures CanInsertLineBelow(b) ==> HistoryBounded(InsertLineBelow(b))
    ensures CanInsertLineAbove(b) ==> HistoryBounded(InsertLineAbove(b))
    ensures HistoryBounded(Undo(b)) && HistoryBounded(Redo(b))
    ensures |b.undoStack| <= UndoLimit + 1
  {
    EditsRecordSnapshot(b, c);
    RecordedIsBounded(b, InsertChar(b, c));
    RecordedIsBounded(b, InsertNewline(b));
    RecordedIsBounded(b, DeleteChar(b));
    if CanBackspace(b) {
      RecordedIsBounded(b, Backspace(b));
    }
    if CanDeleteLine(b) {
      RecordedIsBounded(b, DeleteLine(b));
    }
  }

  /** A recorded edit leaves at most `UndoLimit + 1` undo snapshots and no
      redo snapshot. */
  lemma RecordedIsBounded(b: BufferState, e: BufferState)
    requires HistoryBounded(b) && Recorded(b, e)
    ensures HistoryBounded(e)
  {
  }

  /** The bound is reached: 101 snapshots stay 101 after another edit, which
      evicts the oldest one. */
  lemma FullHistoryEvictsOldest(b: BufferState, c: char)
    requires |b.undoStack| == UndoLimit + 1
    ensures var r := InsertChar(b, c);
            |r.undoStack| == UndoLimit + 1 && r.undoStack[..UndoLimit] == b.undoStack[1..]
  {
  }

  /** `redo` right after `undo` restores the content and both stacks; `undo`
      right after `redo` does too. */
  lemma UndoRedoInverse(b: BufferState)
    ensures |b.undoStack| > 0 ==>
              var r := Redo(Undo(b));
              r.content == b.content && r.undoStack == b.undoStack && r.redoStack == b.redoStack
    ensures |b.redoStack| > 0 ==>
              var r := Undo(Redo(b));
              r.content == b.content && r.undoStack == b.undoStack && r.redoStack == b.redoStack
  {
    if |b.undoStack| > 0 {
      var n := |b.undoStack| - 1;
      assert b.undoStack[..n] + [b.undoStack[n]] == b.undoStack;
    }
    if |b.redoStack| > 0 {
      var n := |b.redoStack| - 1;
      assert b.redoStack[..n] + [b.redoStack[n]] == b.redoStack;
    }
  }

  /** `undo` and `redo` change nothing when their stack is empty. */
  lemma UndoRedoOnEmptyStack(b: BufferState)
    ensures |b.undoStack| == 0 ==> Undo(b) == b
    ensures |b.redoStack| == 0 ==> Redo(b) == b
  {
  }

  /** Undoing right after a recorded edit. */
  lemma UndoAfterRecorded(b: BufferState, e: BufferState)
    requires Recorded(b, e)
    ensures Undo(e).content == b.content && Undo(e).redoStack == [e.content]
  {
  }

  /** `undo` right after an edit brings back the content before it, and the
      edited content becomes the only redo entry. */
  lemma UndoRevertsEdit(b: BufferState, c: char)
    ensures var e := InsertChar(b, c); Undo(e).content == b.content && Undo(e).redoStack == [e.content]
    ensures var e := InsertNewline(b); Undo(e).content == b.content && Undo(e).redoStack == [e.content]
    ensures var e := DeleteChar(b); Undo(e).content == b.content && Undo(e).redoStack == [e.content]
    ensures CanBackspace(b) ==> var e := Backspace(b); Undo(e).content == b.content && Undo(e).redoStack == [e.content]
    ensures CanDeleteLine(b) ==> var e := DeleteLine(b); Undo(e).content == b.content && Undo(e).redoStack == [e.content]
  {
    EditsRecordSnapshot(b, c);
    UndoAfterRecorded(b, InsertChar(b, c));
    UndoAfterRecorded(b, InsertNewline(b));
    UndoAfterRecorded(b, DeleteChar(b));
    if CanBackspace(b) {
      UndoAfterRecorded(b, Backspace(b));
    }
    if CanDeleteLine(b) {
      UndoAfterRecorded(b, DeleteLine(b));
    }
  }

  /** `undo` applied `n` times. */
  function UndoN(b: BufferState, n: nat): BufferState
    decreases n
  {
    if n == 0 then b else UndoN(Undo(b), n - 1)
  }

  /** `redo` applied `n` times. */
  function RedoN(b: BufferState, n: nat): BufferState {
    if n == 0 then b else Redo(RedoN(b, n - 1))
  }

  /** Two buffers agree on their text and on both history stacks. */
  predicate SameHistory(x: BufferState, y: BufferState) {
    x.content == y.content && x.undoStack == y.undoStack && x.redoStack == y.redoStack
  }

  /** `n` undos pop the newest `n` snapshots; the content becomes the
      oldest of them. */
  lemma {:induction false} UndoNPops(b: BufferState, n: nat)
    requires n <= |b.undoStack|
    decreases n
    ensures UndoN(b, n).undoStack == b.undoStack[..|b.undoStack| - n]
    ensures n > 0 ==> UndoN(b, n).content == b.undoStack[|b.undoStack| - n]
  {
    if n > 0 {
      var u := b.undoStack;
      UndoNPops(Undo(b), n - 1);
      assert Undo(b).undoStack == u[..|u| - 1];
      assert u[..|u| - 1][..|u| - 1 - (n - 1)] == u[..|u| - n];
      if n > 1 {
        assert u[..|u| - 1][|u| - 1 - (n - 1)] == u[|u| - n];
      }
    }
  }

  /** `n` redos right after `n` undos give back the text and both stacks. */
  lemma {:induction false} UndosThenRedosRestore(b: BufferState, n: nat)
    requires n <= |b.undoStack|
    decreases n
    ensures SameHistory(RedoN(UndoN(b, n), n), b)
  {
    if n > 0 {
      var x := UndoN(Undo(b), n - 1);
      UndosThenRedosRestore(Undo(b), n - 1);
      assert SameHistory(RedoN(x, n - 1), Undo(b));
      UndoRedoInverse(b);
    }
  }

  /** Every state of `trace` up to index `n` is one recorded edit after the
      state before it. */
  predicate RecordedUpTo(trace: seq<BufferState>, n: nat)
    requires n < |trace|
  {
    n == 0 || (RecordedUpTo(trace, n - 1) && Recorded(trace[n - 1], trace[n]))
  }

  /** `first` is what `k` undos bring back from `b`: the content itself
      when `k` is 0, otherwise the `k`-th snapshot from the top. */
  predicate SnapshotAt(b: BufferState, first: seq<Line>, k: nat) {
    k <= |b.undoStack| &&
    (k == 0 ==> b.content == first) &&
    (k > 0 ==> b.undoStack[|b.undoStack| - k] == first)
  }

  /** One recorded edit pushes the text it replaced: that text is the
      newest snapshot, and a snapshot `m` from the top, `m` at most
      `UndoLimit`, moves to `m + 1` from the top. */
  lemma RecordPushesSnapshot(before: BufferState, after: BufferState, first: seq<Line>, m: nat)
    requires Recorded(before, after) && m <= UndoLimit && SnapshotAt(before, first, m)
    ensures SnapshotAt(after, first, m + 1)
  {
    var r, u := after.undoStack, before.undoStack;
    assert r == PushUndo(before).undoStack;
    if m > 0 {
      assert |r| - 1 >= m;
      assert r[..|r| - 1] == u[|u| - (|r| - 1)..];
      assert r[|r| - (m + 1)] == r[..|r| - 1][|r| - (m + 1)] == u[|u| - m];
    }
  }

  /** After `n` recorded edits, with `n` at most `UndoLimit + 1`, the text
      before the first of them is still the `n`-th snapshot from the top of
      the undo stack. */
  lemma {:induction false} FirstSnapshotKept(trace: seq<BufferState>, n: nat)
    requires n < |trace| && n <= UndoLimit + 1 && RecordedUpTo(trace, n)
    ensures SnapshotAt(trace[n], trace[0].content, n)
  {
    if n > 0 {
      var before, after, first := trace[n - 1], trace[n], trace[0].content;
      assert RecordedUpTo(trace, n - 1) && Recorded(before, after);
      FirstSnapshotKept(trace, n - 1);
      RecordPushesSnapshot(before, after, first, n - 1);
    }
  }

  /** `k` undos from `last` bring `first` back, and `k` redos after them
      restore the text and both stacks of `last`. */
  predicate WalksBack(last: BufferState, first: seq<Line>, k: nat) {
    UndoN(last, k).content == first && SameHistory(RedoN(UndoN(last, k), k), last)
  }

  /** `k` undos from a buffer whose `k`-th snapshot from the top is `first`
      bring `first` back, and `k` redos after them restore the buffer. */
  lemma UndoRedoFromSnapshot(b: BufferState, first: seq<Line>, k: nat)
    requires SnapshotAt(b, first, k)
    ensures WalksBack(b, first, k)
  {
    UndoNPops(b, k);
    UndosThenRedosRestore(b, k);
  }

  /** Undo walks back over up to `UndoLimit + 1` edits: after `k` recorded
      edits, `k` undos bring back the text before the first one, and `k`
      redos after them bring back the text, and both stacks, after the
      last one. */
  lemma UndoRedoOverEdits(trace: seq<BufferState>)
    requires |trace| > 0 && |trace| - 1 <= UndoLimit + 1 && RecordedUpTo(trace, |trace| - 1)
    ensures WalksBack(trace[|trace| - 1], trace[0].content, |trace| - 1)
  {
    var k := |trace| - 1;
    FirstSnapshotKept(trace, k);
    UndoRedoFromSnapshot(trace[k], trace[0].content, k);
  }

  // ---------------------------------------------------------------------
  // Loading and saving
  // ---------------------------------------------------------------------

  /** A successful `save` clears `modified` and changes nothing else; without
      a path it fails with "No file path set"; a failed write changes
      nothing. */
  lemma SaveOutcomes(b: BufferState, writeOk: bool)
    ensures var (r, outcome) := Save(b, writeOk);
            (outcome.Ok? <==> b.path.Some? && writeOk) &&
            (outcome.Ok? ==> r == b.(modified := false)) &&
            (outcome.Err? ==> r == b) &&
            (b.path.None? ==> outcome == Err(NoFilePath))
  {
  }

  /** `save_as` succeeds exactly when the write does; then the buffer takes
      the new path and is no longer modified, and its name is kept. A failed
      write changes nothing and reports an I/O error. */
  lemma SaveAsOutcomes(b: BufferState, path: Line, writeOk: bool)
    ensures var (r, outcome) := SaveAs(b, path, writeOk);
            (outcome.Ok? <==> writeOk) &&
            (outcome.Ok? ==> r == b.(path := Some(path), modified := false)) &&
            (outcome.Err? ==> r == b && outcome == Err(IoError))
  {
  }

  /** Opening a missing path gives one empty line; opening an existing empty
      file gives no line at all, and a later `insert_char` then only records
      a snapshot. */
  lemma OpenedBufferContents(id: nat, path: Line, c: char)
    ensures FromFile(id, path, Missing).Ok? && FromFile(id, path, Missing).value.content == [[]]
    ensures FromFile(id, path, ReadFailed) == Err(IoError)
    ensures var r := FromFile(id, path, Contents([]));
            r.Ok? && r.value.content == [] && InsertChar(r.value, c) == PushUndo(r.value)
  {
  }

  /** Finding the first '\n' of a line, a terminator and more text. */
  lemma {:induction false} FindNewlineAfterLine(line: Line, rest: seq<char>)
    requires '\n' !in line
    ensures Find(line + ['\n'] + rest, ['\n']) == Some(|line|)
  {
    var t := line + ['\n'] + rest;
    assert MatchAt(t, ['\n'], |line|) by {
      assert t[|line|..|line| + 1] == ['\n'];
    }
    forall j | 0 <= j < |line| ensures !MatchAt(t, ['\n'], j) {
      assert t[j..j + 1] == [line[j]];
    }
  }

  /** Writing the lines joined by '\n' and reading them back with `lines()`
      gives the same lines, provided no line holds a '\n', no line but the
      last ends in '\r' and the last line is not empty. */
  lemma {:induction false} SaveThenLoadRoundTrip(content: seq<Line>)
    requires forall i | 0 <= i < |content| :: '\n' !in content[i]
    requires forall i | 0 <= i < |content| - 1 :: content[i] == [] || content[i][|content[i]| - 1] != '\r'
    requires |content| > 0 ==> content[|content| - 1] != []
    ensures Lines(JoinLines(content)) == content
    decreases |content|
  {
    if |content| == 1 {
      var t := content[0];
      forall j | 0 <= j < |t| ensures !MatchAt(t, ['\n'], j) {
        assert t[j..j + 1] == [t[j]];
      }
    } else if |content| > 1 {
      var rest := JoinLines(content[1..]);
      FindNewlineAfterLine(content[0], rest);
      var t := content[0] + ['\n'] + rest;
      assert t[..|content[0]|] == content[0];
      assert t[|content[0]| + 1..] == rest;
      SaveThenLoadRoundTrip(content[1..]);
      assert content == [content[0]] + content[1..];
    }
  }

  /** The round trip fails without those conditions: a buffer of one empty
      line reloads with no line, and a trailing empty line is lost. */
  lemma SaveThenLoadLosesEmptyLastLine()
    ensures JoinLines([[]]) == [] && Lines(JoinLines([[]])) == []
    ensures Lines(JoinLines(["a", []])) == ["a"]
  {
    var t := JoinLines(["a", []]);
    assert t == "a" + ['\n'] + [];
    FindNewlineAfterLine("a", []);
    assert t[..1] == "a" && StripCarriageReturn("a") == "a";
    assert t[2..] == [];
  }
}
