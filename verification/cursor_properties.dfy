/** What the cursor motions of src/core/cursor.rs promise: they keep the
    cursor inside the text, left and right undo each other, vertical motion
    remembers the desired column, and the word motions stop exactly at word
    boundaries. */
module CursorProperties {
  import opened Text
  import opened CursorMotion

  // ---------------------------------------------------------------------
  // Word boundaries, defined independently of the scanning loops
  // ---------------------------------------------------------------------

  /** The three kinds of character the `w`/`b` motions distinguish. */
  datatype Kind = WordChar | Blank | PunctChar

  function KindOf(cls: Classifier, c: char): Kind {
    if cls.isAlphanumeric(c) then WordChar else if cls.isWhitespace(c) then Blank else PunctChar
  }

  /** A word starts at `i`: a non-blank character whose left neighbour is of
      another kind. */
  predicate IsWordStart(cls: Classifier, chars: Line, i: nat) {
    0 < i < |chars| && KindOf(cls, chars[i]) != Blank && KindOf(cls, chars[i - 1]) != KindOf(cls, chars[i])
  }

  /** A WORD starts at `i`: a non-whitespace character after whitespace. */
  predicate IsBigWordStart(cls: Classifier, chars: Line, i: nat) {
    0 < i < |chars| && !cls.isWhitespace(chars[i]) && cls.isWhitespace(chars[i - 1])
  }

  /** An alphanumeric run ends at `i`. */
  predicate IsWordEnd(cls: Classifier, chars: Line, i: nat) {
    i < |chars| && cls.isAlphanumeric(chars[i]) && (i + 1 == |chars| || !cls.isAlphanumeric(chars[i + 1]))
  }

  // ---------------------------------------------------------------------
  // Horizontal motion
  // ---------------------------------------------------------------------

  /** The cases of `move_left` and `move_right` inside the text: a step
      within the line, a wrap to the neighbouring line, or no move at the
      two ends of the text. A step within the line makes the new column
      the desired one; a wrap sets the desired column to the column it
      lands on. */
  lemma HorizontalSteps(content: seq<Line>, s: CursorState)
    requires InBounds(content, s.position)
    ensures var p := s.position;
            p.col > 0 ==> Left(content, s) == CursorState(Position(p.row, p.col - 1), p.col - 1)
    ensures var p := s.position;
            p.col == 0 && p.row > 0 ==>
              Left(content, s) == ToPosition(Position(p.row - 1, |content[p.row - 1]|))
    ensures var p := s.position;
            p.col == 0 && p.row == 0 ==> Left(content, s) == s
    ensures var p := s.position;
            p.col < |content[p.row]| ==> Right(content, s) == CursorState(Position(p.row, p.col + 1), p.col + 1)
    ensures var p := s.position;
            p.col == |content[p.row]| && p.row + 1 < |content| ==>
              Right(content, s) == ToPosition(Position(p.row + 1, 0))
    ensures var p := s.position;
            p.col == |content[p.row]| && p.row + 1 == |content| ==> Right(content, s) == s
  {
  }

  /** `move_left` undoes `move_right` whenever `move_right` moved. */
  lemma LeftUndoesRight(content: seq<Line>, s: CursorState)
    requires InBounds(content, s.position)
    requires Right(content, s) != s
    ensures Left(content, Right(content, s)).position == s.position
  {
  }

  /** `move_right` undoes `move_left` whenever `move_left` moved. */
  lemma RightUndoesLeft(content: seq<Line>, s: CursorState)
    requires InBounds(content, s.position)
    requires Left(content, s) != s
    ensures Right(content, Left(content, s)).position == s.position
  {
  }

  /** `move_right` only stays put at the end of the last line, and
      `move_left` only at the very start of the text. */
  lemma HorizontalEdges(content: seq<Line>, s: CursorState)
    requires InBounds(content, s.position)
    ensures Right(content, s).position == s.position <==>
              (s.position.row == |content| - 1 && s.position.col == |content[s.position.row]|)
    ensures Left(content, s).position == s.position <==> s.position == Position(0, 0)
  {
  }

  /** The example of `["abc", ""]`: three `l` reach (0, 3), the fourth wraps
      to (1, 0), and a fifth stays there. */
  lemma RightWrapsAtEndOfLine()
    ensures var content := ["abc", ""];
            var s3 := Right(content, Right(content, Right(content, Origin)));
            s3.position == Position(0, 3) && Right(content, s3).position == Position(1, 0)
            && Right(content, Right(content, s3)).position == Position(1, 0)
  {
  }

  // ---------------------------------------------------------------------
  // Vertical motion and the sticky column
  // ---------------------------------------------------------------------

  /** `move_up`/`move_down` move one row exactly when that row exists, put
      the cursor at the desired column cut to the target line's length, and
      never change the desired column. */
  lemma VerticalMotionIsSticky(content: seq<Line>, s: CursorState)
    ensures var u := Up(content, s);
            u.desiredCol == s.desiredCol &&
            (if s.position.row > 0
             then u.position == Position(s.position.row - 1, Clamp(content, s.position.row - 1, s.desiredCol))
             else u == s)
    ensures var d := Down(content, s);
            d.desiredCol == s.desiredCol &&
            (if s.position.row + 1 < |content|
             then d.position == Position(s.position.row + 1, Clamp(content, s.position.row + 1, s.desiredCol))
             else d == s)
  {
  }

  /** Moving down over a shorter line and on to a long enough line returns to
      the original column (the sticky-column scenario: column 5, then a line
      of 3, then a line of 8). */
  lemma DownTwiceRestoresColumn(content: seq<Line>, s: CursorState)
    requires s.position.col == s.desiredCol
    requires s.position.row + 2 < |content|
    requires s.desiredCol <= |content[s.position.row + 2]|
    ensures Down(content, Down(content, s)).position == Position(s.position.row + 2, s.position.col)
    ensures Down(content, s).position.col == if |content[s.position.row + 1]| < s.desiredCol
                                             then |content[s.position.row + 1]| else s.desiredCol
  {
  }

  /** Down then up returns to the starting position when the column is the
      desired one. */
  lemma UpUndoesDown(content: seq<Line>, s: CursorState)
    requires InBounds(content, s.position)
    requires s.position.col == s.desiredCol
    requires s.position.row + 1 < |content|
    ensures Up(content, Down(content, s)) == s
  {
  }

  // ---------------------------------------------------------------------
  // Word motions
  // ---------------------------------------------------------------------

  /** Inside a run of characters of one set, neighbours are of one kind. */
  lemma SameRunSameKind(cls: Classifier, k: CharSet, chars: Line, i: nat)
    requires k == Alphanumeric || k == Punctuation
    requires 0 < i < |chars| && In(cls, k, chars[i - 1]) && In(cls, k, chars[i])
    ensures !IsWordStart(cls, chars, i)
  {
  }

  /** `w` on a line stops at the first word start after the cursor, or at the
      end of the line when there is none. */
  lemma {:induction false} WordForwardStopsAtNextWordStart(cls: Classifier, chars: Line, col: nat)
    requires cls.Coherent()
    requires col < |chars|
    ensures var r := WordForwardCol(cls, chars, col);
            (r == |chars| || IsWordStart(cls, chars, r)) &&
            forall i | col < i < r :: !IsWordStart(cls, chars, i)
  {
    var c := chars[col];
    var pos :=
      if cls.isAlphanumeric(c) then SkipForward(cls, Alphanumeric, chars, col)
      else if !cls.isWhitespace(c) then SkipForward(cls, Punctuation, chars, col)
      else col;
    var r := SkipForward(cls, Whitespace, chars, pos);
    assert r == WordForwardCol(cls, chars, col);
    var k := if cls.isAlphanumeric(c) then Alphanumeric else Punctuation;
    if !cls.isWhitespace(c) {
      assert pos == SkipForward(cls, k, chars, col);
      forall i | col < i < pos ensures !IsWordStart(cls, chars, i) {
        SameRunSameKind(cls, k, chars, i);
      }
    }
    forall i | pos <= i < r ensures !IsWordStart(cls, chars, i) {
      assert cls.isWhitespace(chars[i]);
    }
    if r < |chars| {
      assert !cls.isWhitespace(chars[r]);
      if r == pos {
        assert !cls.isWhitespace(c) && col < pos;
        assert In(cls, k, chars[r - 1]) && !In(cls, k, chars[r]);
      } else {
        assert cls.isWhitespace(chars[r - 1]);
      }
    }
  }

  /** `W` on a line stops at the first WORD start after the cursor, or at
      the end of the line when there is none. */
  lemma {:induction false} BigWordForwardStopsAtNextBigWordStart(cls: Classifier, chars: Line, col: nat)
    requires col < |chars|
    ensures var r := BigWordForwardCol(cls, chars, col);
            (r == |chars| || IsBigWordStart(cls, chars, r)) &&
            forall i | col < i < r :: !IsBigWordStart(cls, chars, i)
  {
    var pos := SkipForward(cls, NonWhitespace, chars, col);
    var r := SkipForward(cls, Whitespace, chars, pos);
    forall i | col < i < r ensures !IsBigWordStart(cls, chars, i) {
      if i < pos {
        assert !cls.isWhitespace(chars[i - 1]);
      } else {
        assert cls.isWhitespace(chars[i]);
      }
    }
    if r < |chars| {
      if r == pos {
        assert false;
      }
      assert cls.isWhitespace(chars[r - 1]);
    }
  }

  /** `b` within a line stops at the last word start before the cursor, or
      at column 0 when there is none. */
  lemma {:induction false} WordBackwardStopsAtPreviousWordStart(cls: Classifier, chars: Line, col: nat)
    requires cls.Coherent()
    requires 0 < col <= |chars|
    ensures var r := WordBackwardCol(cls, chars, col);
            (r == 0 || IsWordStart(cls, chars, r)) &&
            forall i | r < i < col :: !IsWordStart(cls, chars, i)
  {
    var q := SkipBackward(cls, Whitespace, chars, col - 1);
    var r := WordBackwardCol(cls, chars, col);
    forall i | q < i < col ensures !IsWordStart(cls, chars, i) {
      assert HasAt(cls, Whitespace, chars, i);
    }
    if HasAt(cls, Alphanumeric, chars, q) || HasAt(cls, Punctuation, chars, q) {
      var k := if HasAt(cls, Alphanumeric, chars, q) then Alphanumeric else Punctuation;
      assert r == SkipRunBackward(cls, k, chars, q);
      forall i | r < i <= q ensures !IsWordStart(cls, chars, i) {
        assert HasAt(cls, k, chars, i - 1);
        assert i == q || HasAt(cls, k, chars, i);
        SameRunSameKind(cls, k, chars, i);
      }
      if r > 0 {
        assert HasAt(cls, k, chars, r) && !HasAt(cls, k, chars, r - 1);
      }
    } else {
      assert r == q;
      assert q == 0;
    }
  }

  /** `B` within a line stops at the last WORD start before the cursor, or at
      column 0 when there is none. */
  lemma {:induction false} BigWordBackwardStopsAtPreviousBigWordStart(cls: Classifier, chars: Line, col: nat)
    requires 0 < col <= |chars|
    ensures var r := BigWordBackwardCol(cls, chars, col);
            (r == 0 || IsBigWordStart(cls, chars, r)) &&
            forall i | r < i < col :: !IsBigWordStart(cls, chars, i)
  {
    var q := SkipBackward(cls, Whitespace, chars, col - 1);
    var r := SkipRunBackward(cls, NonWhitespace, chars, q);
    forall i | r < i < col ensures !IsBigWordStart(cls, chars, i) {
      if i <= q {
        assert HasAt(cls, NonWhitespace, chars, i - 1);
      } else {
        assert HasAt(cls, Whitespace, chars, i);
      }
    }
    if r > 0 {
      assert !HasAt(cls, NonWhitespace, chars, r - 1);
      if r == q {
        assert !HasAt(cls, Whitespace, chars, q);
      } else {
        assert HasAt(cls, NonWhitespace, chars, r);
      }
    }
  }

  /** `e` on a non-empty line: past the word under the cursor (ending before
      `e`), it stops on the end of the next alphanumeric run, or on the last
      character of the line when no run ends after the cursor's word. */
  lemma {:induction false} EndOfWordStopsAtNextWordEnd(cls: Classifier, chars: Line, col: nat)
    requires col < |chars|
    ensures var e := if cls.isAlphanumeric(chars[col]) then SkipForward(cls, Alphanumeric, chars, col) else col;
            var r := EndOfWordCol(cls, chars, col);
            col <= e && e <= |chars| &&
            (forall i | col <= i < e :: cls.isAlphanumeric(chars[i])) &&
            ((e <= r && IsWordEnd(cls, chars, r) && forall i | e <= i < r :: !IsWordEnd(cls, chars, i)) ||
             (r == |chars| - 1 && forall i | e <= i < |chars| :: !IsWordEnd(cls, chars, i)))
  {
    var e := if cls.isAlphanumeric(chars[col]) then SkipForward(cls, Alphanumeric, chars, col) else col;
    var s := SkipForward(cls, NonAlphanumeric, chars, e);
    var t := SkipForward(cls, Alphanumeric, chars, s);
    assert HasAt(cls, Alphanumeric, chars, col) == cls.isAlphanumeric(chars[col]);
    var r := EndOfWordCol(cls, chars, col);
    if s < |chars| {
      assert cls.isAlphanumeric(chars[s]);
      assert r == t - 1;
      assert IsWordEnd(cls, chars, r);
      forall i | e <= i < r ensures !IsWordEnd(cls, chars, i) {
        if i >= s {
          assert cls.isAlphanumeric(chars[i + 1]);
        }
      }
    } else {
      assert r == |chars| - 1;
    }
  }

  /** `w` from the start of "hello world" lands on the "w" of "world". */
  lemma WordForwardExample(cls: Classifier)
    requires cls.Coherent()
    requires forall c | c in "helloworld" :: cls.isAlphanumeric(c)
    requires cls.isWhitespace(' ')
    ensures WordForward(cls, ["hello world"], Origin).position == Position(0, 6)
  {
    var chars := "hello world";
    assert chars[5] == ' ';
    assert SkipForward(cls, Alphanumeric, chars, 5) == 5;
    assert SkipForward(cls, Alphanumeric, chars, 0) == 5;
    assert SkipForward(cls, Whitespace, chars, 6) == 6 by {
      assert chars[6] == 'w' && 'w' in "helloworld";
    }
    assert SkipForward(cls, Whitespace, chars, 5) == 6;
  }

  // ---------------------------------------------------------------------
  // Effects on the cursor state
  // ---------------------------------------------------------------------

  /** `w`/`W` either stay on the row and move strictly right onto a
      non-whitespace character, or go to column 0 of the next row, or (on the
      last row) do nothing; the desired column follows the column. */
  lemma ForwardWordMotionOutcomes(cls: Classifier, content: seq<Line>, s: CursorState)
    requires InBounds(content, s.position)
    ensures var p := s.position;
            forall r | r == WordForward(cls, content, s) || r == BigWordForward(cls, content, s) ::
              (r.position.row == p.row && p.col < r.position.col < |content[p.row]| &&
               !cls.isWhitespace(content[p.row][r.position.col]) && r.desiredCol == r.position.col) ||
              (r == ToPosition(Position(p.row + 1, 0)) && p.row + 1 < |content|) ||
              (r == s && p.row + 1 == |content|)
  {
  }

  /** `b`/`B` with the cursor past column 0 stay on the row and move strictly
      left; at column 0 they go to the end of the previous row, and at (0, 0)
      they do nothing. */
  lemma BackwardWordMotionOutcomes(cls: Classifier, content: seq<Line>, s: CursorState)
    requires InBounds(content, s.position)
    ensures var p := s.position;
            forall r | r == WordBackward(cls, content, s) || r == BigWordBackward(cls, content, s) ::
              (p.col > 0 ==> r.position.row == p.row && r.position.col < p.col && r.desiredCol == r.position.col) &&
              (p.col == 0 && p.row > 0 ==> r == ToPosition(Position(p.row - 1, |content[p.row - 1]|))) &&
              (p == Position(0, 0) ==> r == s)
  {
  }

  /** `e` never changes the row, does nothing on an empty line, and always
      leaves the cursor on a character of the line. */
  lemma EndOfWordStaysOnLine(cls: Classifier, content: seq<Line>, s: CursorState)
    requires s.position.row < |content|
    ensures var r := EndOfWord(cls, content, s);
            r.position.row == s.position.row &&
            (|content[s.position.row]| == 0 ==> r == s) &&
            (|content[s.position.row]| > 0 ==> r.position.col < |content[s.position.row]| && r.desiredCol == r.position.col)
  {
  }

  /** Every relative motion keeps the cursor inside the text. The absolute
      setters `ToPosition`/`ToColumn` do not clamp and are not covered. */
  lemma MotionsPreserveBounds(cls: Classifier, content: seq<Line>, s: CursorState)
    requires InBounds(content, s.position)
    ensures InBounds(content, Left(content, s).position)
    ensures InBounds(content, Right(content, s).position)
    ensures InBounds(content, Up(content, s).position)
    ensures InBounds(content, Down(content, s).position)
    ensures InBounds(content, WordForward(cls, content, s).position)
    ensures InBounds(content, BigWordForward(cls, content, s).position)
    ensures InBounds(content, WordBackward(cls, content, s).position)
    ensures InBounds(content, BigWordBackward(cls, content, s).position)
    ensures InBounds(content, EndOfWord(cls, content, s).position)
  {
  }
}
