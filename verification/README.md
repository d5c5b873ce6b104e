# zen-vim editing core, modelled in Dafny

zen-vim is a small modal text editor written in Rust. This project models
its editing engine and two pieces of list logic next to it, and proves
what they promise:

- **Cursor motion** (`src/core/cursor.rs`). A cursor is a `(row, col)`
  position, with `col` counted in characters, plus a sticky desired
  column. The motions are h/j/k/l with line wrap, vertical moves that
  remember the desired column, the word and WORD motions forward and
  backward, and end-of-word. Module `CursorMotion` defines every motion as
  a function on `CursorState`. Its class `Cursor` performs the motions in
  place, using the scanning `while` loops of the source. Module
  `CursorProperties` holds the lemmas.
- **Buffers** (`src/core/buffer.rs`). A buffer holds its lines, its cursor
  and a snapshot undo history, and is edited by character insert, newline
  split, backspace, forward delete and delete line. A `BufferManager` maps
  buffer ids to buffers, hands out ids from a counter and tracks the
  current buffer. Module `Editing` has each buffer operation as a function
  on `BufferState`, and module `Management` has the manager's operations
  on `ManagerState`. The classes `Buffer` and `BufferManager` of module
  `TextBuffer` perform them in place. The manager's hash map owns its
  buffers, so it stores them as `BufferState` values; a change made
  through `current_buffer_mut` writes the new value back under the
  current id. `EditingProperties` and
  `ManagementProperties` hold the lemmas.
- **Modes** (`src/modes/mod.rs`). Normal, Insert, Visual and Command mode
  form a state machine with a command line and a small ex-command grammar,
  plus plain substring search forward and backward with wrap-around and
  the "word under cursor" lookup. Module `Search` defines the searches as
  "first match in visiting order" functions, each with a method that runs
  the source's row loops. Module `Modes` has the key handlers as functions
  on `ModeState` and `ManagerState`. Class `ModeManager` of module
  `ModeControl` updates its fields and a `BufferManager` in place.
  `ModesProperties` holds the lemmas.
- **Picker** (`src/picker.rs`). The fuzzy picker has a wrap-around
  selection, a case-insensitive substring filter, a key handler and the
  parser of the `file:line:content` lines that the grep tools print.
  Module `Pickers` works on values, class `Picker` of module
  `PickerControl` works in place, and `PickerProperties` holds the lemmas.
- **Dashboard** (`src/ui/dashboard.rs`). The start screen maps a key to a
  menu action (`Dashboard`, `DashboardProperties`).

The model has two layers:

- Every class method ensures that its new state is the value-level
  function applied to its old state (`State() == Spec(old(State()))`), or
  that its result is that function's result.
- The properties are then proved as lemmas about those functions.

The model makes these assumptions:

- **Character classes.** `is_alphanumeric`, `is_whitespace` and
  `to_lowercase` are Unicode library functions. They enter as parameters:
  a `Classifier` holding the two predicates, and a `lower` function on
  lines. The only assumption made about them is `Classifier.Coherent`,
  which says an alphanumeric character is never whitespace. Only the
  lemmas that need it take it as a precondition.
- **Byte offsets.** The search code reports byte offsets and stores them
  as cursor columns, which count characters. The model searches over
  characters. Both agree exactly when the lines are ASCII, and the model
  assumes they are.
- **Panics.** Where the source would panic, the model adds a precondition
  stating the panic condition exactly. These are `CanBackspace`,
  `CanDeleteLine`, `CanInsertLineBelow`, `CanInsertLineAbove` and
  `CanSearchBackward`. `KeySafe` gathers them for each key.
- **File system.** `IoReply` stands for the file system: whether a write
  succeeds, and whether a read finds nothing, fails, or returns a text.
- **Grep tool.** `grepOutput` is the grep tool's standard output, or
  `None` when the tool could not be run.

Some of the code's behaviour departs from vim's, or from what its own
names suggest. The model follows the code in each case:

- **Undo depth.** The oldest undo snapshot is evicted only when the stack
  holds more than 100 before a push, so the stack reaches 101 entries, not
  100.
- **Word characters.** Word motions treat only alphanumerics as word
  characters, so `_` counts as punctuation.
- **W, B and E.** `W` and `B` run the word motions, not the WORD motions,
  and `E` runs `e`. The WORD motions exist on the cursor and are modelled,
  but no key reaches them.
- **Command line.** Esc and Enter in Command mode keep the command line.
  Entering Command mode with `:` clears it only when it does not hold a
  search (`/...`).
- **Opening a line.** `o` and `O` open a line without recording an undo
  snapshot, because the manager edits the buffer's fields directly.
- **Picker keys.** In the picker, Esc reports nothing, exactly like typing
  or moving the selection. Only Enter reports a result.

## Model

| member | source | states |
|---|---|---|
| CursorMotion.Clamp | src/core/cursor.rs:200-207 | the column is at most the desired column and at most the row's length, and equals one of the two |
| CursorMotion.WordForwardCol | src/core/cursor.rs:78-121 | the column `w` reaches on the line is strictly right of the start, at most the line's length, and on a non-whitespace character when inside the line |
| CursorMotion.BigWordForwardCol | src/core/cursor.rs:209-245 | the same for the WORD variant: strictly right, within the line, on a non-whitespace character when inside |
| CursorMotion.WordBackwardCol | src/core/cursor.rs:163-198 | the column `b` reaches from a column past 0 is strictly left of it |
| CursorMotion.BigWordBackwardCol | src/core/cursor.rs:247-275 | the same for the WORD variant |
| CursorMotion.EndOfWordCol | src/core/cursor.rs:123-161 | on a non-empty line `e` lands on a character of the line |
| CursorMotion.ScanForward | src/core/cursor.rs:94-109 | the forward scanning loop stops at the first index at or after its start that does not hold a character of the set |
| CursorMotion.ScanBackward | src/core/cursor.rs:170-172 | the backward loop that tests the character under the position stops where `SkipBackward` says |
| CursorMotion.ScanRunBackward | src/core/cursor.rs:176-184 | the loop that steps back while the previous character is in the set stops at the start of that run |
| CursorMotion.Cursor.constructor | src/core/cursor.rs:14-19 | a new cursor is at (0, 0) with desired column 0 |
| CursorMotion.Cursor.MoveToPosition | src/core/cursor.rs:25-28 | the cursor takes the position unclamped and the desired column follows it |
| CursorMotion.Cursor.MoveToColumn | src/core/cursor.rs:30-33 | only the column changes, unclamped, and the desired column follows it |
| CursorMotion.Cursor.MoveLeft | src/core/cursor.rs:35-47 | the new state is `Left` of the old one: one left, or to the end of the previous line |
| CursorMotion.Cursor.MoveRight | src/core/cursor.rs:49-62 | the new state is `Right` of the old one: one right, or to column 0 of the next line |
| CursorMotion.Cursor.MoveUp | src/core/cursor.rs:64-69 | the new state is `Up` of the old one, with the column clamped from the desired column |
| CursorMotion.Cursor.MoveDown | src/core/cursor.rs:71-76 | the new state is `Down` of the old one |
| CursorMotion.Cursor.LandForward | src/core/cursor.rs:111-119 | stops on the line at the scanned position when it is inside the line, otherwise goes to column 0 of the next row if there is one |
| CursorMotion.Cursor.MoveWordForward | src/core/cursor.rs:78-121 | the scanning loops and landing step give `WordForward` of the old state |
| CursorMotion.Cursor.MoveWordForwardWhitespace | src/core/cursor.rs:209-245 | the loops give `BigWordForward` of the old state |
| CursorMotion.Cursor.MoveToEndOfWord | src/core/cursor.rs:123-161 | the loops give `EndOfWord` of the old state |
| CursorMotion.Cursor.BackToPreviousLine | src/core/cursor.rs:190-197 | at column 0 the cursor goes to the end of the previous line, moving only the row when that line does not exist |
| CursorMotion.Cursor.MoveWordBackward | src/core/cursor.rs:163-198 | the loops give `WordBackward` of the old state |
| CursorMotion.Cursor.MoveWordBackwardWhitespace | src/core/cursor.rs:247-275 | the loops give `BigWordBackward` of the old state |
| CursorProperties.LeftUndoesRight | src/core/cursor.rs:35-62 | whenever `move_right` moved, `move_left` brings the cursor back to where it was |
| CursorProperties.RightUndoesLeft | src/core/cursor.rs:35-62 | whenever `move_left` moved, `move_right` brings the cursor back |
| CursorProperties.HorizontalSteps | src/core/cursor.rs:35-62 | inside the text `move_left` steps one column left (the desired column follows), wraps to the end of the previous line, or stays at (0, 0); `move_right` steps one column right, wraps to column 0 of the next line, or stays at the end of the last line |
| CursorProperties.HorizontalEdges | src/core/cursor.rs:35-62 | `move_right` stays put only at the end of the last line, and `move_left` only at (0, 0) |
| CursorProperties.RightWrapsAtEndOfLine | src/core/cursor.rs:49-62 | on `["abc", ""]` three `l` reach (0, 3), the fourth wraps to (1, 0) and a fifth stays |
| CursorProperties.VerticalMotionIsSticky | src/core/cursor.rs:64-76 | up and down move one row exactly when it exists, set the column to the desired column cut to the target line's length, and keep the desired column |
| CursorProperties.DownTwiceRestoresColumn | src/core/cursor.rs:71-76 | passing a short line on the way down returns to the original column on a long enough line |
| CursorProperties.UpUndoesDown | src/core/cursor.rs:64-76 | down then up returns to the start when the column is the desired one |
| CursorProperties.WordForwardStopsAtNextWordStart | src/core/cursor.rs:78-121 | on a line, `w` stops at the first word start after the cursor, or at the line's end when there is none |
| CursorProperties.BigWordForwardStopsAtNextBigWordStart | src/core/cursor.rs:209-245 | the WORD motion stops at the first non-blank after blank after the cursor, or at the end |
| CursorProperties.WordBackwardStopsAtPreviousWordStart | src/core/cursor.rs:163-198 | within a line, `b` stops at the last word start before the cursor, or at column 0 |
| CursorProperties.BigWordBackwardStopsAtPreviousBigWordStart | src/core/cursor.rs:247-275 | the same for the WORD motion |
| CursorProperties.EndOfWordStopsAtNextWordEnd | src/core/cursor.rs:123-161 | `e` stops on the end of the next alphanumeric run after the word under the cursor, or on the last character when there is none |
| CursorProperties.WordForwardExample | src/core/cursor.rs:78-121 | `w` from the start of "hello world" lands on column 6 |
| CursorProperties.ForwardWordMotionOutcomes | src/core/cursor.rs:78-121 | `w` and `W` either move strictly right on the row onto a non-whitespace character, or go to column 0 of the next row, or do nothing on the last row; the desired column follows the column |
| CursorProperties.BackwardWordMotionOutcomes | src/core/cursor.rs:163-198 | `b` and `B` move strictly left on the row from a column past 0, go to the end of the previous row from column 0, and do nothing at (0, 0) |
| CursorProperties.EndOfWordStaysOnLine | src/core/cursor.rs:123-161 | `e` never changes the row, does nothing on an empty line and leaves the column at most the line's length minus one |
| CursorProperties.MotionsPreserveBounds | src/core/cursor.rs:35-275 | every relative motion keeps a cursor that is inside a non-empty text inside it |
| Editing.TrimTrailingSlashes | src/core/buffer.rs:43-47 | the result is a prefix of the path, does not end in '/', and only '/' characters were removed |
| Editing.AfterLastSlash | src/core/buffer.rs:43-47 | the result is a suffix of the path without '/', preceded by '/' or the whole path |
| Editing.FileName | src/core/buffer.rs:43-47 | the buffer name is "untitled" or the last component of the path without its trailing slashes: a suffix preceded by '/' or by nothing, never "." or ".."; it never contains '/' |
| Editing.PushUndo | src/core/buffer.rs:82-88 | the snapshot of the content is the newest undo entry, redo is empty, and the stack drops its oldest entry only when it held more than 100 |
| Editing.Cut | src/core/buffer.rs:95-99 | the index the source falls back to is at most the column and the line's length, and equals one of the two |
| EditingProperties.InsertCharInsertsAtCursor | src/core/buffer.rs:90-103 | `insert_char` makes the cursor line `old[..col] + [c] + old[col..]`, keeps the other lines, sets `modified` and moves to `(row, col + 1)` |
| EditingProperties.InsertCharExample | src/core/buffer.rs:90-103 | 'X' at the start of "ab" gives "Xab" with the cursor at (0, 1) |
| EditingProperties.InsertNewlineSplitsLine | src/core/buffer.rs:105-123 | one more line; the two halves concatenate to the old line; the cursor is at `(row + 1, 0)` |
| EditingProperties.BackspaceDeletesLeft | src/core/buffer.rs:125-149 | past column 0, the character left of the cursor is removed and the cursor moves onto its column |
| EditingProperties.BackspaceJoinsLines | src/core/buffer.rs:125-149 | at column 0 past row 0, the line is appended to the previous one, one line fewer, and the cursor goes to the previous line's old end |
| EditingProperties.BackspaceAtOriginKeepsText | src/core/buffer.rs:125-149 | at (0, 0) only the snapshot is recorded |
| EditingProperties.DeleteCharDeletesUnderCursor | src/core/buffer.rs:151-172 | the character under the cursor is removed and the cursor does not move |
| EditingProperties.DeleteCharAtLineEnd | src/core/buffer.rs:151-172 | at the line's end the next line is joined; on the last line nothing changes but the history, and `modified` is not set |
| EditingProperties.DeleteCharIsBackspaceFromTheRight | src/core/buffer.rs:125-172 | forward delete gives the same lines as backspace from one column further right |
| EditingProperties.DeleteLineRemovesRow | src/core/buffer.rs:174-190 | a single line is emptied; otherwise the row is removed and the cursor goes to `(min(row, count - 1), 0)`; the text never becomes empty |
| EditingProperties.OpenLineEffects | src/core/buffer.rs:399-416 | `o` opens an empty line below and moves onto it, `O` opens one at the row and stays; neither records a snapshot |
| EditingProperties.BackspaceUndoesInsertChar | src/core/buffer.rs:90-149 | backspace right after typing restores the lines and the cursor position |
| EditingProperties.BackspaceUndoesInsertNewline | src/core/buffer.rs:105-149 | backspace right after a split joins the line again and returns the cursor |
| EditingProperties.EditsKeepCursorInText | src/core/buffer.rs:90-190 | every edit and both line insertions keep a non-empty text with the cursor on it |
| EditingProperties.UndoCanLeaveCursorOutside | src/core/buffer.rs:192-206 | `undo` and `redo` do not move the cursor and can leave it outside the text |
| EditingProperties.EditsRecordSnapshot | src/core/buffer.rs:82-190 | each of the five edits pushes the exact content before it and clears redo, even when it changes nothing |
| EditingProperties.HistoryStaysBounded | src/core/buffer.rs:82-88 | every operation keeps at most 101 snapshots in the two stacks together |
| EditingProperties.FullHistoryEvictsOldest | src/core/buffer.rs:82-88 | with 101 snapshots an edit evicts the oldest and keeps 101 |
| EditingProperties.UndoRedoInverse | src/core/buffer.rs:192-206 | redo after undo, and undo after redo, restore the content and both stacks |
| EditingProperties.UndoNPops | src/core/buffer.rs:192-198 | `n` undos pop the newest `n` snapshots and leave the oldest of them as the content |
| EditingProperties.UndosThenRedosRestore | src/core/buffer.rs:192-206 | `n` redos right after `n` undos give back the text and both stacks |
| EditingProperties.RecordPushesSnapshot | src/core/buffer.rs:82-88 | a recorded edit makes the replaced text the newest snapshot and moves every snapshot up to 100 from the top one place down |
| EditingProperties.FirstSnapshotKept | src/core/buffer.rs:82-88 | after up to 101 recorded edits, the text before the first is still on the undo stack, that many places from the top |
| EditingProperties.UndoRedoFromSnapshot | src/core/buffer.rs:192-206 | `k` undos reach the `k`-th snapshot from the top and `k` redos then restore the buffer |
| EditingProperties.UndoRedoOverEdits | src/core/buffer.rs:82-206 | after `k` recorded edits, `k` at most 101, `k` undos bring back the text before the first edit and `k` redos then bring back the text and both stacks after the last |
| EditingProperties.UndoRedoOnEmptyStack | src/core/buffer.rs:192-206 | undo and redo change nothing when their stack is empty |
| EditingProperties.UndoAfterRecorded | src/core/buffer.rs:192-198 | undo right after a recorded edit brings back the snapshot and leaves the edited content as the only redo entry |
| EditingProperties.UndoRevertsEdit | src/core/buffer.rs:82-198 | undo right after any of the five edits brings back the content before it |
| EditingProperties.SaveOutcomes | src/core/buffer.rs:62-71 | a save without a path fails with "No file path set"; a save succeeds exactly when there is a path and the write succeeds, and then clears `modified` only; a failed save changes nothing |
| EditingProperties.SaveAsOutcomes | src/core/buffer.rs:73-80 | `save_as` succeeds exactly when the write succeeds, and then sets the path, clears `modified` and keeps the name; a failed write changes nothing and reports an I/O error |
| EditingProperties.OpenedBufferContents | src/core/buffer.rs:33-60 | a missing path opens as one empty line, an empty file as no line, and typing there only records a snapshot |
| EditingProperties.SaveThenLoadRoundTrip | src/core/buffer.rs:33-71 | writing lines joined by '\n' and reading them back gives the same lines, when no line holds '\n', no line but the last ends in '\r' and the last is not empty |
| EditingProperties.SaveThenLoadLosesEmptyLastLine | src/core/buffer.rs:33-71 | without those conditions the round trip fails: one empty line reloads as none, and a trailing empty line is lost |
| TextBuffer.Buffer.constructor | src/core/buffer.rs:20-31 | a new buffer is `NewBuffer`: one empty line, no path, empty history |
| TextBuffer.Buffer.Loaded | src/core/buffer.rs:33-60 | a buffer opened from a read is `FromFile`'s successful result |
| TextBuffer.Buffer.Save | src/core/buffer.rs:62-71 | the state and the result are those of `Save` |
| TextBuffer.Buffer.SaveAs | src/core/buffer.rs:73-80 | the state and the result are those of `SaveAs` |
| TextBuffer.Buffer.PushUndo | src/core/buffer.rs:82-88 | the new state is `PushUndo` of the old one |
| TextBuffer.Buffer.InsertChar | src/core/buffer.rs:90-103 | the in-place insert gives `InsertChar` of the old state |
| TextBuffer.Buffer.InsertNewline | src/core/buffer.rs:105-123 | the in-place split gives `InsertNewline` of the old state |
| TextBuffer.Buffer.Backspace | src/core/buffer.rs:125-149 | the in-place edit gives `Backspace` of the old state |
| TextBuffer.Buffer.DeleteChar | src/core/buffer.rs:151-172 | the in-place edit gives `DeleteChar` of the old state |
| TextBuffer.Buffer.DeleteLine | src/core/buffer.rs:174-190 | the in-place edit gives `DeleteLine` of the old state |
| TextBuffer.Buffer.Undo | src/core/buffer.rs:192-198 | the new state is `Undo` of the old one |
| TextBuffer.Buffer.Redo | src/core/buffer.rs:200-206 | the new state is `Redo` of the old one |
| TextBuffer.Buffer.ApplyOp | src/core/buffer.rs:296-428 | one forwarded operation gives `Apply` of the old state |
| TextBuffer.BufferManager.CurrentBuffer | src/core/buffer.rs:258-264 | the buffer stored under the current id, none when there is no current id or it names no buffer; in a well-formed manager its id is the current id |
| TextBuffer.BufferManager.UpdateCurrent | src/core/buffer.rs:262-264 | a change made through `current_buffer_mut` replaces the current buffer and nothing else, and keeps the manager well formed |
| TextBuffer.BufferManager.constructor | src/core/buffer.rs:224-230 | a new manager has no buffers, no current buffer and next id 1 |
| TextBuffer.BufferManager.CreateBuffer | src/core/buffer.rs:236-245 | the state and returned id are those of `CreateBuffer` |
| TextBuffer.BufferManager.OpenFile | src/core/buffer.rs:247-256 | the state and result are those of `OpenFile`, including the id used up by a failed read |
| TextBuffer.BufferManager.SwitchBuffer | src/core/buffer.rs:266-273 | the state and result are those of `SwitchBuffer` |
| TextBuffer.BufferManager.CloseBuffer | src/core/buffer.rs:275-289 | the old state, new state and result are related by `Closes` |
| TextBuffer.BufferManager.SaveCurrent | src/core/buffer.rs:430-436 | the state and result are those of `SaveCurrent` |
| TextBuffer.BufferManager.Run | src/core/buffer.rs:296-428 | a forwarded operation gives `Perform` of the old state |
| ManagementProperties.EmptyManagerIsWellFormed | src/core/buffer.rs:224-230 | a new manager satisfies the bookkeeping invariant |
| ManagementProperties.CreateBufferHandsOutNextId | src/core/buffer.rs:236-245 | `create_buffer` returns the old next id, which no buffer had, bumps the counter, makes the new empty buffer current and keeps the others |
| ManagementProperties.OpenFileUsesUpId | src/core/buffer.rs:247-256 | `open_file` uses up an id whether or not the read succeeds; a success adds the buffer and makes it current |
| ManagementProperties.SwitchBufferIffStored | src/core/buffer.rs:266-273 | `switch_buffer` succeeds exactly for a stored id, and otherwise changes nothing |
| ManagementProperties.CloseBufferOutcomes | src/core/buffer.rs:275-289 | every outcome stays well formed; a refusal happens exactly for a modified buffer; a closed id cannot be switched to; no modified buffer is dropped |
| ManagementProperties.ClosingLastBufferLeavesNoCurrent | src/core/buffer.rs:275-289 | closing the only, current, unmodified buffer leaves no current buffer |
| ManagementProperties.SaveCurrentOutcomes | src/core/buffer.rs:430-436 | without a current buffer the save fails with "No current buffer"; with one, only that buffer is saved |
| ManagementProperties.ApplyKeepsIdentity | src/core/buffer.rs:296-428 | no forwarded operation changes a buffer's id, path or name |
| ManagementProperties.PerformTouchesOnlyCurrent | src/core/buffer.rs:296-428 | forwarded operations change the current buffer only, and nothing without one |
| ManagementProperties.MotionsKeepText | src/core/buffer.rs:296-361 | motions change only the cursor |
| ManagementProperties.LineAndFileEnd | src/core/buffer.rs:338-361 | `$` goes to the end of the cursor line and `G` to the end of the last line |
| ManagementProperties.OperationsKeepCursorInText | src/core/buffer.rs:296-416 | every forwarded operation but undo and redo keeps the cursor inside a non-empty text |
| Text.SkipForward | src/core/cursor.rs:95-109 | the first index at or after the start that does not hold a character of the set, with every character skipped in the set |
| Text.SkipBackward | src/core/cursor.rs:170-172 | the backward loop stops at or before the start; every index after the stop up to the start holds a character of the set, and the stop is 0 or does not |
| Text.SkipRunBackward | src/core/cursor.rs:176-184 | the start of the run of characters of the set that ends just before the position |
| Text.FindFrom | src/modes/mod.rs:342-344 | the leftmost occurrence at or after an index, and none exactly when no occurrence starts there or later |
| Text.Find | src/modes/mod.rs:361 | `find`: the leftmost occurrence, none exactly when there is no occurrence |
| Text.RFindFrom | src/modes/mod.rs:388-390 | the rightmost occurrence starting at or before an index |
| Text.RFind | src/modes/mod.rs:403 | `rfind`: the rightmost occurrence, none exactly when there is no occurrence |
| Text.TrimStart | src/modes/mod.rs:284 | the result is a suffix without leading whitespace, and only whitespace was removed |
| Text.TrimEnd | src/modes/mod.rs:284 | the result is a prefix without trailing whitespace, and only whitespace was removed |
| Text.Trim | src/modes/mod.rs:284 | the result is a slice `s[i..j]` of the line where everything before `i` and after `j` is whitespace, and it neither starts nor ends with whitespace |
| Text.StripCarriageReturn | src/picker.rs:383 | a line ending in '\r' loses exactly that one character; any other line is returned unchanged |
| Text.Lines | src/picker.rs:383 | `lines()`: no line holds '\n', and there is no line exactly when the text is empty |
| Search.FindInRowFrom | src/modes/mod.rs:341-346 | for a non-empty pattern, the leftmost occurrence on a row at or after a column, and none exactly when there is none there |
| Search.ScanForwardRows | src/modes/mod.rs:340-353 | for a non-empty pattern, the first occurrence in reading order from a row on that lies after the cursor, and none exactly when there is none |
| Search.ScanWrapRows | src/modes/mod.rs:356-369 | the first occurrence in reading order in the rows above a limit, and none exactly when there is none |
| Search.ForwardMatchIsFirstInSearchOrder | src/modes/mod.rs:334-373 | forward search lands on the first occurrence in its visiting order (cursor row after the cursor, rows below, then rows above) and finds nothing exactly when there is none |
| Search.FindForward | src/modes/mod.rs:334-373 | the two row loops with their early returns compute `ForwardMatch` |
| Search.RFindInRowTo | src/modes/mod.rs:387-390 | the rightmost occurrence that ends within a row's first characters, and none exactly when there is none |
| Search.ScanBackwardRows | src/modes/mod.rs:385-398 | the last occurrence in reading order that backward search may find in the rows below a top row, and none exactly when there is none there |
| Search.ScanBackwardWrap | src/modes/mod.rs:401-411 | the last occurrence in reading order among the rows from a low row up to a top row, and none exactly when those rows hold none |
| Search.BackwardMatchIsFirstInSearchOrder | src/modes/mod.rs:375-415 | backward search lands on the first occurrence in its visiting order that it may find, and finds nothing exactly when there is none |
| Search.BackwardSearchSkipsCursorRowNearLineStart | src/modes/mod.rs:378-388 | with the cursor in column 0 or 1 the cursor row is never searched |
| Search.FindBackward | src/modes/mod.rs:375-415 | the first row loop and, when it finds nothing, the second compute `BackwardMatch` |
| Search.ScanBackwardRowsLoop | src/modes/mod.rs:377-398 | the first loop, with its early return, computes `ScanBackwardRows` over the cursor row and the rows above it |
| Search.ScanBackwardWrapLoop | src/modes/mod.rs:400-411 | the second loop, with its early return, computes `ScanBackwardWrap` over the rows below the cursor row |
| Search.WordAtIsRunAroundCursor | src/modes/mod.rs:417-450 | there is a word exactly when the cursor is on the line and on an alphanumeric or just right of one, and it is the whole alphanumeric run around the cursor |
| Search.WordAround | src/modes/mod.rs:417-450 | the two `while` loops compute `WordAt` |
| Modes.SetMode | src/modes/mod.rs:46-54 | the mode is set, the mode left is recorded, and the command line is cleared exactly when entering Command mode with a line that is not a search |
| Modes.SetCommandModeWithPrefix | src/modes/mod.rs:56-61 | Command mode with the line holding just the prefix, recording the mode left |
| ModesProperties.VisualModeOnlyReactsToEsc | src/modes/mod.rs:252-261 | in Visual mode Esc returns to Normal and every other key changes nothing |
| ModesProperties.InsertModeOnlyLeavesOnEsc | src/modes/mod.rs:227-250 | in Insert mode only Esc changes the mode state, and it leaves the buffers alone |
| ModesProperties.NormalModeSwitches | src/modes/mod.rs:139-171 | i, I, a, A, o and O enter Insert mode, v Visual mode, ':' Command mode keeping a search line and '/' Command mode with "/" |
| ModesProperties.UnboundNormalKeysDoNothing | src/modes/mod.rs:222 | an unbound Normal-mode key changes nothing |
| ModesProperties.ControlKeyBindings | src/modes/mod.rs:186-220 | only Ctrl-r and Ctrl-p depend on Control; plain 'r' does nothing and Ctrl-n acts as 'n' |
| ModesProperties.RepeatSearchNeedsPattern | src/modes/mod.rs:191-202 | `n` and `N` do nothing before a pattern is set |
| ModesProperties.StarSearchesWordUnderCursor | src/modes/mod.rs:205-210 | `*` remembers the non-empty alphanumeric run under the cursor and searches forward for it, and does nothing without a word |
| ModesProperties.CommandLineEditing | src/modes/mod.rs:263-281 | characters are appended, Backspace drops the last one, both stay in Command mode; Esc returns to Normal without running the line and keeps it |
| ModesProperties.ExecuteCommandOnlySetsSearchPattern | src/modes/mod.rs:283-332 | a command changes at most the remembered search pattern, and only "/pattern" with a non-empty pattern does |
| ModesProperties.EnterRunsCommandAndReturnsToNormal | src/modes/mod.rs:268-271 | Enter runs the line and always ends in Normal mode with the line kept |
| ModesProperties.ExCommandGrammar | src/modes/mod.rs:284-328 | a trimmed line is a search exactly when it is '/' and more; the quit words, the five write words, "w name" and "e name" are recognised; everything else is ignored |
| ModesProperties.CommandsIgnoreSurroundingBlanks | src/modes/mod.rs:284 | whitespace around a command does not change its meaning |
| ModesProperties.HandleKeyRecordsLastMode | src/modes/mod.rs:46-75 | a mode change records the mode left, and the remembered mode changes only with the mode |
| ModesProperties.SearchOnlyMovesCursor | src/modes/mod.rs:334-373 | forward search moves the current cursor to the match and changes nothing else, or changes nothing |
| ModesProperties.BackwardSearchOnlyMovesCursor | src/modes/mod.rs:375-415 | the same for backward search |
| ModesProperties.HandleKeyKeepsManagerWellFormed | src/modes/mod.rs:67-75 | no key breaks the buffer manager's bookkeeping invariant |
| ModesProperties.ExecuteKeepsManagerWellFormed | src/modes/mod.rs:283-332 | no command breaks it |
| ModesProperties.SaveAsKeepsManagerWellFormed | src/modes/mod.rs:313-319 | "w name" keeps the invariant, the ids and the current buffer |
| ModesProperties.TypedSearch | src/modes/mod.rs:168-171 | typing "/", a character and Enter searches for it, remembers it and ends in Normal mode |
| ModeControl.ModeManager.constructor | src/modes/mod.rs:33-40 | Normal mode, last mode Normal, empty command line and no pattern |
| ModeControl.ModeManager.SetMode | src/modes/mod.rs:46-54 | the new state is `SetMode` of the old one |
| ModeControl.ModeManager.SetCommandModeWithPrefix | src/modes/mod.rs:56-61 | the new state is `SetCommandModeWithPrefix` of the old one |
| ModeControl.ModeManager.SearchInBuffer | src/modes/mod.rs:334-373 | the manager ends as `SearchForwardIn` says |
| ModeControl.ModeManager.SearchBackwardInBuffer | src/modes/mod.rs:375-415 | the manager ends as `SearchBackwardIn` says |
| ModeControl.ModeManager.GetWordUnderCursor | src/modes/mod.rs:417-450 | returns `WordUnderCursor` of the manager |
| ModeControl.ModeManager.SearchAndRemember | src/modes/mod.rs:286-292 | remembers the pattern and searches forward |
| ModeControl.ModeManager.SaveCurrentAs | src/modes/mod.rs:313-319 | the manager ends as `SaveCurrentAs` says |
| ModeControl.ModeManager.RunCommand | src/modes/mod.rs:286-329 | the mode state and manager end as `RunCommand` says for the recognised command |
| ModeControl.ModeManager.ExecuteCommand | src/modes/mod.rs:283-332 | the mode state and manager end as `ExecuteCommand` says |
| ModeControl.ModeManager.SubmitCommand | src/modes/mod.rs:268-271 | Enter runs the command line on the old state and then returns to Normal mode |
| ModeControl.ModeManager.HandleNormalMode | src/modes/mod.rs:77-225 | they end as `HandleNormal` says |
| ModeControl.ModeManager.HandleInsertMode | src/modes/mod.rs:227-250 | they end as `HandleInsert` says |
| ModeControl.ModeManager.HandleVisualMode | src/modes/mod.rs:252-261 | they end as `HandleVisual` says |
| ModeControl.ModeManager.HandleCommandMode | src/modes/mod.rs:263-281 | they end as `HandleCommand` says |
| ModeControl.ModeManager.HandleKey | src/modes/mod.rs:67-75 | they end as `HandleKey` says |
| Pickers.Range | src/picker.rs:85 | the list 0, 1, ..., n - 1 |
| Pickers.Filter | src/picker.rs:327-338 | the indices of exactly the matching items, strictly increasing |
| Pickers.IndexOf | src/picker.rs:385 | the first index holding the character, none exactly when it does not occur |
| Pickers.SplitAtColon | src/picker.rs:385 | none exactly when the line has no ':'; otherwise a ':'-free head and the rest, which join back to the line around ':' |
| Pickers.SplitColon3 | src/picker.rs:385 | `splitn(3, ':')`: one to three parts that join back to the line with ':', the first ones free of ':' |
| Pickers.ParseUsize | src/picker.rs:388 | a number is read exactly when the text after an optional '+' is a non-empty run of ASCII digits whose decimal value is below 2^64, and it is that value |
| Pickers.GrepItems | src/picker.rs:383-401 | at most one item per line, each naming a file, no buffer and the matched text |
| Pickers.FirstLines | src/picker.rs:383 | `take(100)`: a prefix of at most 100 lines, all of them when there are fewer |
| PickerControl.ReadGrepLines | src/picker.rs:383-401 | the loop over at most the first 100 lines keeps exactly the items `GrepItems` builds from them |
| PickerControl.GrepSearchItems | src/picker.rs:356-406 | a blank query or a tool that could not be run gives no items, otherwise the parsed lines, as `GrepSearch` says |
| PickerControl.Picker.constructor | src/picker.rs:83-99 | a fresh picker shows every item, selects the first when there is one and has an empty query |
| PickerControl.Picker.MoveSelectionUp | src/picker.rs:279-289 | the new state is `MoveSelectionUp` of the old one |
| PickerControl.Picker.MoveSelectionDown | src/picker.rs:291-301 | the new state is `MoveSelectionDown` of the old one |
| PickerControl.Picker.SelectCurrent | src/picker.rs:303-319 | returns `SelectCurrent` of the state |
| PickerControl.Picker.PerformGrepSearch | src/picker.rs:356-406 | the items become `GrepSearch`'s and all of them are shown; the kind, selection and query are kept |
| PickerControl.Picker.UpdateFilter | src/picker.rs:321-354 | the new state is `UpdateFilter` of the old one |
| PickerControl.Picker.HandleKey | src/picker.rs:251-277 | the new state and the result are `HandleKey`'s |
| PickerProperties.SelectionWrapsAround | src/picker.rs:279-301 | on a non-empty list down adds one and up subtracts one modulo the length; on an empty one neither does anything; both keep the picker consistent |
| PickerProperties.MovesUndoEachOther | src/picker.rs:279-301 | up undoes down and down undoes up |
| PickerProperties.SelectCurrentReportsHighlightedItem | src/picker.rs:303-319 | Enter reports the path and buffer id of the highlighted item, and nothing on an empty list |
| PickerProperties.UpdateFilterShowsMatches | src/picker.rs:321-354 | the state stays consistent with the first entry selected exactly when something is shown; an empty query shows all; Files and Buffers show exactly the matches in order; Grep shows the grep run's items |
| PickerProperties.TypingThenErasingRefilters | src/picker.rs:265-272 | typing and erasing a character leaves a Files or Buffers picker re-filtered on its original query |
| PickerProperties.OnlyEnterReports | src/picker.rs:251-277 | a result is reported exactly for Enter; Esc changes nothing and reports nothing |
| PickerProperties.HandleKeyKeepsConsistent | src/picker.rs:251-277 | every key keeps the picker consistent |
| PickerProperties.OpenIsConsistent | src/picker.rs:83-99 | a fresh picker is consistent and has a selection exactly when it has items |
| PickerProperties.SplitUndoesJoin | src/picker.rs:385 | splitting "file:number:content" gives back the three parts when file and number hold no ':' |
| PickerProperties.GrepLineRoundTrip | src/picker.rs:385-399 | such a line becomes the item with display "file:number: content", that path, no buffer, the parsed number and the content |
| PickerProperties.GrepLineNeedsTwoColons | src/picker.rs:385-386 | a line yields an item exactly when it holds two colons |
| PickerProperties.GrepItemsComeFromLines | src/picker.rs:383-401 | every item built from some lines is the item of one of those lines |
| PickerProperties.GrepOutputIsBounded | src/picker.rs:383-401 | at most 100 items, each naming a file and no buffer and each the item of one of the first 100 output lines |
| PickerProperties.DecimalValue | src/picker.rs:388 | the decimal digits of n are worth n |
| PickerProperties.ParseUsizeReadsDecimal | src/picker.rs:388 | parsing the decimal form of a `usize`, with or without '+', gives it back; "" and "+" give none |
| Dashboard.FirstAction | src/ui/dashboard.rs:111-120 | none exactly when no entry lists the character; otherwise the action of the first entry that lists it |
| DashboardProperties.MenuBindings | src/ui/dashboard.rs:25-31 | 'p' and 'f' give "files", 't' "grep", 'b' "buffers", 'r' "resume" and 'q' "quit", whatever the modifiers |
| DashboardProperties.FirstEntryWins | src/ui/dashboard.rs:113-118 | the lookup returns the first listing entry's action |
| DashboardProperties.OnlyMenuKeysAct | src/ui/dashboard.rs:111-124 | a key gives an action exactly when it is a character of "pftbrq"; the action is one of the five menu actions, never "rename" |

## Left out

- `next_buffer` and `previous_buffer` are called by Ctrl-n and Ctrl-p in Normal mode, but they are defined nowhere in the code. `Modes.NormalSafe` excludes Ctrl-p. Ctrl-n is unreachable, because the plain 'n' binding matches it first.
- The quit commands `q`, `quit`, `q!`, `wq`, `x` and `wq!` send no quit signal, because their bodies are placeholders. The model does the saving they do and nothing more.
- `rename_current_file` and `resume_session` are left out, because they are empty stubs.
- `src/app.rs` is left out because it is terminal I/O and timing: the event loop, the leader-key timeout, and the interception of 'q' and space in Normal mode before the mode manager sees them.
- Rendering is left out because it is UI: `src/ui/mod.rs`, `Dashboard::render`, `Picker::render` and the preview.
- The picker constructors are left out. Walking the directory and listing the buffers are data sources, so the class constructor takes the collected items.
- The `rg` and `grep` subprocess calls are left out. The tool's standard output is the parameter `grepOutput`, and `None` stands for a tool that could not be run.
- The picker's `show_preview` flag and its `max_results` truncation are left out, because they belong to the data sources and to rendering.
- `src/config.rs`, `src/core/session.rs` and `src/main.rs` are left out because they are file formats and process start-up.
- The Unicode tables are left out. `is_alphanumeric`, `is_whitespace` and `to_lowercase` are parameters.
- `close_buffer` picks the new current buffer in hash-map order. The model states this choice as the relation `Closes` and does not fix an order.
- Search offsets are counted in characters, so a line with non-ASCII characters is outside the model.
- Pickers.ParseUsize: models a 64-bit `usize`. Digits other than ASCII are not accepted, as in the source.
- Editing.FileName: treats a final "." component like "..", where `file_name()` would also treat "a/." as having the name "a"; only the displayed name depends on it.
- Modes.HandleKey and ModeControl.ModeManager.HandleKey: require `KeySafe`, so keys that would panic (backspace, backward search, `d`, `o` and `O` with the cursor row missing, and Ctrl-p) are not modelled.
- TextBuffer.Buffer.Save, TextBuffer.Buffer.SaveAs and TextBuffer.BufferManager.OpenFile: the file system is a parameter, so what is on disk after a write is not modelled. Only the round trip of the text written is stated, as a lemma about `JoinLines` and `Lines`.
