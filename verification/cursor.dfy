/** The cursor of a buffer (src/core/cursor.rs): a (row, col) position,
    with `col` counted in characters, and the sticky "desired column" that
    vertical motion tries to return to. Every motion reads the buffer's
    lines and is total: at the edges of the text it does nothing.

    Each motion is first defined as a function on `CursorState` values; the
    `Cursor` class then performs it in place, with the word motions written
    as the source's scanning loops, and is proved to agree with the
    function. */
module CursorMotion {
  import opened Text

  datatype Position = Position(row: nat, col: nat)

  datatype CursorState = CursorState(position: Position, desiredCol: nat)

  const Origin := CursorState(Position(0, 0), 0)

  /** Character count of line `row`, or 0 when the line does not exist. */
  function LineLen(content: seq<Line>, row: nat): nat {
    if row < |content| then |content[row]| else 0
  }

  /** The bounds every edit keeps: there is a line, the cursor is on one, and
      at most one column past its last character. */
  predicate InBounds(content: seq<Line>, p: Position) {
    |content| > 0 && p.row < |content| && p.col <= |content[p.row]|
  }

  /** `clamp_column`: the desired column cut down to the length of `row`. */
  function Clamp(content: seq<Line>, row: nat, desired: nat): (c: nat)
    ensures c <= desired && c <= LineLen(content, row)
    ensures c == desired || c == LineLen(content, row)
  {
    if desired < LineLen(content, row) then desired else LineLen(content, row)
  }

  // ---------------------------------------------------------------------
  // Absolute and single-step motions
  // ---------------------------------------------------------------------

  /** `move_to_position`: no clamping; the column becomes the desired one. */
  function ToPosition(p: Position): CursorState {
    CursorState(p, p.col)
  }

  /** `move_to_column`: no clamping; the column becomes the desired one. */
  function ToColumn(s: CursorState, col: nat): CursorState {
    CursorState(s.position.(col := col), col)
  }

  /** `move_left`: one character left, or to the end of the previous line. */
  function Left(content: seq<Line>, s: CursorState): CursorState {
    var p := s.position;
    if p.col > 0 then ToColumn(s, p.col - 1)
    else if p.row > 0 then ToPosition(Position(p.row - 1, LineLen(content, p.row - 1)))
    else s
  }

  /** `move_right`: one character right, or to column 0 of the next line. */
  function Right(content: seq<Line>, s: CursorState): CursorState {
    var p := s.position;
    if p.row < |content| then
      if p.col < |content[p.row]| then ToColumn(s, p.col + 1)
      else if p.row + 1 < |content| then ToPosition(Position(p.row + 1, 0))
      else s
    else s
  }

  /** `move_up`: the row above, at the desired column clamped to its length;
      the desired column itself is kept. */
  function Up(content: seq<Line>, s: CursorState): CursorState {
    var p := s.position;
    if p.row > 0 then s.(position := Position(p.row - 1, Clamp(content, p.row - 1, s.desiredCol)))
    else s
  }

  /** `move_down`: the row below, at the desired column clamped to its length;
      the desired column itself is kept. */
  function Down(content: seq<Line>, s: CursorState): CursorState {
    var p := s.position;
    if p.row + 1 < |content| then s.(position := Position(p.row + 1, Clamp(content, p.row + 1, s.desiredCol)))
    else s
  }

  // ---------------------------------------------------------------------
  // Word motions
  // ---------------------------------------------------------------------

  /** Where `move_word_forward` stops on the cursor's line: past the run of
      alphanumerics or of punctuation under the cursor, then past whitespace. */
  function WordForwardCol(cls: Classifier, chars: Line, col: nat): (r: nat)
    requires col < |chars|
    ensures col < r <= |chars|
    ensures r < |chars| ==> !cls.isWhitespace(chars[r])
  {
    var pos :=
      if cls.isAlphanumeric(chars[col]) then SkipForward(cls, Alphanumeric, chars, col)
      else if !cls.isWhitespace(chars[col]) then SkipForward(cls, Punctuation, chars, col)
      else col;
    SkipForward(cls, Whitespace, chars, pos)
  }

  /** Where `move_word_forward_whitespace` stops on the cursor's line: past
      the non-whitespace run under the cursor, then past whitespace. */
  function BigWordForwardCol(cls: Classifier, chars: Line, col: nat): (r: nat)
    requires col < |chars|
    ensures col < r <= |chars|
    ensures r < |chars| ==> !cls.isWhitespace(chars[r])
  {
    SkipForward(cls, Whitespace, chars, SkipForward(cls, NonWhitespace, chars, col))
  }

  /** The common shape of the two forward motions: stop on the line when the
      scan `colOnLine` ends inside it, otherwise go to column 0 of the next
      line if there is one. */
  function ForwardOnLineOrNext(content: seq<Line>, s: CursorState, colOnLine: nat): CursorState {
    var p := s.position;
    if colOnLine < LineLen(content, p.row) then ToColumn(s, colOnLine)
    else if p.row + 1 < |content| then ToPosition(Position(p.row + 1, 0))
    else s
  }

  /** `move_word_forward` (the `w` motion). */
  function WordForward(cls: Classifier, content: seq<Line>, s: CursorState): CursorState {
    var p := s.position;
    if p.row < |content| then
      var chars := content[p.row];
      if p.col >= |chars| then ForwardOnLineOrNext(content, s, |chars|)
      else ForwardOnLineOrNext(content, s, WordForwardCol(cls, chars, p.col))
    else s
  }

  /** `move_word_forward_whitespace` (the WORD variant of `w`). */
  function BigWordForward(cls: Classifier, content: seq<Line>, s: CursorState): CursorState {
    var p := s.position;
    if p.row < |content| then
      var chars := content[p.row];
      if p.col >= |chars| then ForwardOnLineOrNext(content, s, |chars|)
      else ForwardOnLineOrNext(content, s, BigWordForwardCol(cls, chars, p.col))
    else s
  }

  /** Where `move_word_backward` stops on the cursor's line, starting from
      column `col` > 0: back over whitespace, then to the start of the run of
      alphanumerics or punctuation reached. */
  function WordBackwardCol(cls: Classifier, chars: Line, col: nat): (r: nat)
    requires col > 0
    ensures r < col
  {
    var pos := SkipBackward(cls, Whitespace, chars, col - 1);
    if HasAt(cls, Alphanumeric, chars, pos) then SkipRunBackward(cls, Alphanumeric, chars, pos)
    else if HasAt(cls, Punctuation, chars, pos) then SkipRunBackward(cls, Punctuation, chars, pos)
    else pos
  }

  /** Where `move_word_backward_whitespace` stops on the cursor's line. */
  function BigWordBackwardCol(cls: Classifier, chars: Line, col: nat): (r: nat)
    requires col > 0
    ensures r < col
  {
    SkipRunBackward(cls, NonWhitespace, chars, SkipBackward(cls, Whitespace, chars, col - 1))
  }

  /** The common shape of the two backward motions at column 0: the end of
      the previous line. When that row does not exist (a cursor left beyond
      the text) only the row moves, as in the source. */
  function BackwardToPreviousLine(content: seq<Line>, s: CursorState): CursorState
    requires s.position.col == 0 && s.position.row > 0
  {
    var row := s.position.row - 1;
    if row < |content| then ToPosition(Position(row, |content[row]|))
    else s.(position := s.position.(row := row))
  }

  /** `move_word_backward` (the `b` motion). */
  function WordBackward(cls: Classifier, content: seq<Line>, s: CursorState): CursorState {
    var p := s.position;
    if p.col > 0 then
      if p.row < |content| then ToColumn(s, WordBackwardCol(cls, content[p.row], p.col)) else s
    else if p.row > 0 then BackwardToPreviousLine(content, s)
    else s
  }

  /** `move_word_backward_whitespace` (the WORD variant of `b`). */
  function BigWordBackward(cls: Classifier, content: seq<Line>, s: CursorState): CursorState {
    var p := s.position;
    if p.col > 0 then
      if p.row < |content| then ToColumn(s, BigWordBackwardCol(cls, content[p.row], p.col)) else s
    else if p.row > 0 then BackwardToPreviousLine(content, s)
    else s
  }

  /** Where `move_to_end_of_word` stops on a non-empty line: past the
      alphanumeric run under the cursor, past the non-alphanumerics after it,
      to the end of the next alphanumeric run, one step back, and never past
      the last character. */
  function EndOfWordCol(cls: Classifier, chars: Line, col: nat): (r: nat)
    requires |chars| > 0
    ensures r < |chars|
  {
    var pos := if HasAt(cls, Alphanumeric, chars, col) then SkipForward(cls, Alphanumeric, chars, col) else col;
    var pos := SkipForward(cls, NonAlphanumeric, chars, pos);
    var pos := SkipForward(cls, Alphanumeric, chars, pos);
    var pos := if pos > 0 then pos - 1 else pos;
    if pos < |chars| - 1 then pos else |chars| - 1
  }

  /** `move_to_end_of_word` (the `e` motion): stays on the row. */
  function EndOfWord(cls: Classifier, content: seq<Line>, s: CursorState): CursorState {
    var p := s.position;
    if p.row < |content| && |content[p.row]| > 0 then ToColumn(s, EndOfWordCol(cls, content[p.row], p.col))
    else s
  }

  // ---------------------------------------------------------------------
  // The scanning loops of the word motions
  // ---------------------------------------------------------------------

  /** `while pos < chars.len() && k(chars[pos]) { pos += 1; }` */
  method ScanForward(cls: Classifier, k: CharSet, chars: Line, start: nat) returns (pos: nat)
    ensures pos == SkipForward(cls, k, chars, start)
  {
    pos := start;
    while pos < |chars| && In(cls, k, chars[pos])
      invariant start <= pos && (pos == start || pos <= |chars|)
      invariant SkipForward(cls, k, chars, pos) == SkipForward(cls, k, chars, start)
    {
      pos := pos + 1;
    }
  }

  /** `while pos > 0 && chars.get(pos).map_or(false, k) { pos -= 1; }` */
  method ScanBackward(cls: Classifier, k: CharSet, chars: Line, start: nat) returns (pos: nat)
    ensures pos == SkipBackward(cls, k, chars, start)
  {
    pos := start;
    while pos > 0 && pos < |chars| && In(cls, k, chars[pos])
      invariant pos <= start
      invariant SkipBackward(cls, k, chars, pos) == SkipBackward(cls, k, chars, start)
    {
      pos := pos - 1;
    }
  }

  /** `while pos > 0 && chars.get(pos - 1).map_or(false, k) { pos -= 1; }` */
  method ScanRunBackward(cls: Classifier, k: CharSet, chars: Line, start: nat) returns (pos: nat)
    ensures pos == SkipRunBackward(cls, k, chars, start)
  {
    pos := start;
    while pos > 0 && pos - 1 < |chars| && In(cls, k, chars[pos - 1])
      invariant pos <= start
      invariant SkipRunBackward(cls, k, chars, pos) == SkipRunBackward(cls, k, chars, start)
    {
      pos := pos - 1;
    }
  }

  // ---------------------------------------------------------------------
  // The cursor object
  // ---------------------------------------------------------------------

  class Cursor {
    var position: Position
    var desiredCol: nat

    function State(): CursorState
      reads this
    {
      CursorState(position, desiredCol)
    }

    constructor ()
      ensures State() == Origin
    {
      position := Position(0, 0);
      desiredCol := 0;
    }

    method MoveToPosition(pos: Position)
      modifies this
      ensures State() == ToPosition(pos)
    {
      position := pos;
      desiredCol := pos.col;
    }

    method MoveToColumn(col: nat)
      modifies this
      ensures State() == ToColumn(old(State()), col)
    {
      position := position.(col := col);
      desiredCol := col;
    }

    method MoveLeft(content: seq<Line>)
      modifies this
      ensures State() == Left(content, old(State()))
    {
      if position.col > 0 {
        position := position.(col := position.col - 1);
        desiredCol := position.col;
      } else if position.row > 0 {
        position := position.(row := position.row - 1);
        position := position.(col := if position.row < |content| then |content[position.row]| else 0);
        desiredCol := position.col;
      }
    }

    method MoveRight(content: seq<Line>)
      modifies this
      ensures State() == Right(content, old(State()))
    {
      if position.row < |content| {
        var lineLen := |content[position.row]|;
        if position.col < lineLen {
          position := position.(col := position.col + 1);
          desiredCol := position.col;
        } else if position.row + 1 < |content| {
          position := Position(position.row + 1, 0);
          desiredCol := 0;
        }
      }
    }

    method MoveUp(content: seq<Line>)
      modifies this
      ensures State() == Up(content, old(State()))
    {
      if position.row > 0 {
        position := position.(row := position.row - 1);
        position := position.(col := Clamp(content, position.row, desiredCol));
      }
    }

    method MoveDown(content: seq<Line>)
      modifies this
      ensures State() == Down(content, old(State()))
    {
      if position.row + 1 < |content| {
        position := position.(row := position.row + 1);
        position := position.(col := Clamp(content, position.row, desiredCol));
      }
    }

    /** Stop on the line at `pos` when it is inside it, otherwise go to the
        start of the next line if there is one. */
    method LandForward(content: seq<Line>, pos: nat)
      modifies this
      ensures State() == ForwardOnLineOrNext(content, old(State()), pos)
    {
      if pos < LineLen(content, position.row) {
        position := position.(col := pos);
        desiredCol := pos;
      } else if position.row + 1 < |content| {
        position := Position(position.row + 1, 0);
        desiredCol := 0;
      }
    }

    method MoveWordForward(cls: Classifier, content: seq<Line>)
      modifies this
      ensures State() == WordForward(cls, content, old(State()))
    {
      if position.row < |content| {
        var chars := content[position.row];
        if |chars| == 0 || position.col >= |chars| {
          LandForward(content, |chars|);
          return;
        }
        var pos := position.col;
        if pos < |chars| && cls.isAlphanumeric(chars[pos]) {
          pos := ScanForward(cls, Alphanumeric, chars, pos);
        } else if pos < |chars| && !cls.isWhitespace(chars[pos]) {
          pos := ScanForward(cls, Punctuation, chars, pos);
        }
        pos := ScanForward(cls, Whitespace, chars, pos);
        LandForward(content, pos);
      }
    }

    method MoveWordForwardWhitespace(cls: Classifier, content: seq<Line>)
      modifies this
      ensures State() == BigWordForward(cls, content, old(State()))
    {
      if position.row < |content| {
        var chars := content[position.row];
        if |chars| == 0 || position.col >= |chars| {
          LandForward(content, |chars|);
          return;
        }
        var pos := ScanForward(cls, NonWhitespace, chars, position.col);
        pos := ScanForward(cls, Whitespace, chars, pos);
        LandForward(content, pos);
      }
    }

    method MoveToEndOfWord(cls: Classifier, content: seq<Line>)
      modifies this
      ensures State() == EndOfWord(cls, content, old(State()))
    {
      if position.row < |content| {
        var chars := content[position.row];
        if |chars| == 0 {
          return;
        }
        var pos := position.col;
        if pos < |chars| && cls.isAlphanumeric(chars[pos]) {
          pos := ScanForward(cls, Alphanumeric, chars, pos);
        }
        pos := ScanForward(cls, NonAlphanumeric, chars, pos);
        pos := ScanForward(cls, Alphanumeric, chars, pos);
        if pos > 0 {
          pos := pos - 1;
        }
        pos := if pos < |chars| - 1 then pos else |chars| - 1;
        position := position.(col := pos);
        desiredCol := pos;
      }
    }

    /** Column 0 of a backward motion: the end of the previous line. */
    method BackToPreviousLine(content: seq<Line>)
      requires position.col == 0 && position.row > 0
      modifies this
      ensures State() == BackwardToPreviousLine(content, old(State()))
    {
      position := position.(row := position.row - 1);
      if position.row < |content| {
        position := position.(col := |content[position.row]|);
        desiredCol := position.col;
      }
    }

    method MoveWordBackward(cls: Classifier, content: seq<Line>)
      modifies this
      ensures State() == WordBackward(cls, content, old(State()))
    {
      if position.col > 0 {
        if position.row < |content| {
          var chars := content[position.row];
          var pos := ScanBackward(cls, Whitespace, chars, position.col - 1);
          if pos < |chars| && cls.isAlphanumeric(chars[pos]) {
            pos := ScanRunBackward(cls, Alphanumeric, chars, pos);
          } else if pos < |chars| && !cls.isAlphanumeric(chars[pos]) && !cls.isWhitespace(chars[pos]) {
            pos := ScanRunBackward(cls, Punctuation, chars, pos);
          }
          position := position.(col := pos);
          desiredCol := pos;
        }
      } else if position.row > 0 {
        BackToPreviousLine(content);
      }
    }

    method MoveWordBackwardWhitespace(cls: Classifier, content: seq<Line>)
      modifies this
      ensures State() == BigWordBackward(cls, content, old(State()))
    {
      if position.col > 0 {
        if position.row < |content| {
          var chars := content[position.row];
          var pos := ScanBackward(cls, Whitespace, chars, position.col - 1);
          pos := ScanRunBackward(cls, NonWhitespace, chars, pos);
          position := position.(col := pos);
          desiredCol := pos;
        }
      } else if position.row > 0 {
        BackToPreviousLine(content);
      }
    }
  }
}
