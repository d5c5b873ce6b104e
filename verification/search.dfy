/** The plain-substring search of src/modes/mod.rs (the `n`, `N` and `*`
    keys and the "/pattern" command) and the "word under the cursor" that
    `*` searches for.

    The source slices lines and reports columns in bytes, the cursor counts
    characters; the model works on characters, so it describes texts whose
    characters are all ASCII, where the two agree. */
module Search {
  import opened Basics
  import opened Text
  import opened CursorMotion

  /** `pat` occurs in the text starting at `p`. */
  predicate Hit(content: seq<Line>, pat: Line, p: Position) {
    p.row < |content| && MatchAt(content[p.row], pat, p.col)
  }

  /** `p` comes before `q` reading the text row by row. */
  predicate Lex(p: Position, q: Position) {
    p.row < q.row || (p.row == q.row && p.col < q.col)
  }

  lemma MatchInSuffix(s: Line, pat: Line, f: nat, k: nat)
    requires f <= |s|
    ensures MatchAt(s[f..], pat, k) <==> MatchAt(s, pat, f + k)
  {
    if k + |pat| <= |s| - f {
      assert s[f..][k..k + |pat|] == s[f + k..f + k + |pat|];
    }
  }

  lemma MatchInPrefix(s: Line, pat: Line, e: nat, k: nat)
    requires e <= |s|
    ensures MatchAt(s[..e], pat, k) <==> MatchAt(s, pat, k) && k + |pat| <= e
  {
    if k + |pat| <= e {
      assert s[..e][k..k + |pat|] == s[k..k + |pat|];
    }
  }

  // ---------------------------------------------------------------------
  // Forward search (`search_in_buffer`)
  // ---------------------------------------------------------------------

  /** Forward search never looks at the cursor row up to and including the
      cursor column. */
  predicate AfterCursor(pos: Position, q: Position) {
    q.row != pos.row || q.col > pos.col
  }

  /** The column the scan of `row` starts from: one past the cursor on the
      cursor row, the start of the line elsewhere. */
  function ForwardStart(pos: Position, row: nat): nat {
    if row == pos.row then pos.col + 1 else 0
  }

  /** `line[min(from, len)..].find(pat)`, reported as `from + offset`. For a
      non-empty pattern this is the leftmost occurrence at or after `from`. */
  function FindInRowFrom(line: Line, pat: Line, from: nat): (r: Option<nat>)
    ensures pat != [] && r.Some? ==> from <= r.value && MatchAt(line, pat, r.value)
    ensures pat != [] && r.Some? ==> forall j | from <= j < r.value :: !MatchAt(line, pat, j)
    ensures pat != [] && r.None? ==> forall j | from <= j :: !MatchAt(line, pat, j)
  {
    var f := if from < |line| then from else |line|;
    var k := Find(line[f..], pat);
    assert forall j | f <= j :: MatchAt(line[f..], pat, j - f) <==> MatchAt(line, pat, j) by {
      forall j | f <= j ensures MatchAt(line[f..], pat, j - f) <==> MatchAt(line, pat, j) {
        MatchInSuffix(line, pat, f, j - f);
      }
    }
    if k.Some? then Some(from + k.value) else None
  }

  /** The first loop of `search_in_buffer` from `row` on: the first hit, in
      reading order, that lies after the cursor. */
  function ScanForwardRows(content: seq<Line>, pat: Line, pos: Position, row: nat): (r: Option<Position>)
    decreases |content| - row
    ensures pat != [] && r.Some? ==> row <= r.value.row && Hit(content, pat, r.value) && AfterCursor(pos, r.value)
    ensures pat != [] && r.Some? ==>
      forall q: Position | row <= q.row && Hit(content, pat, q) && AfterCursor(pos, q) :: !Lex(q, r.value)
    ensures pat != [] && r.None? ==>
      forall q: Position | row <= q.row && Hit(content, pat, q) :: !AfterCursor(pos, q)
  {
    if row >= |content| then None
    else
      match FindInRowFrom(content[row], pat, ForwardStart(pos, row))
      case Some(col) => Some(Position(row, col))
      case None => ScanForwardRows(content, pat, pos, row + 1)
  }

  /** The second loop of `search_in_buffer` from `row` on: the first hit, in
      reading order, in the rows above `limit`. */
  function ScanWrapRows(content: seq<Line>, pat: Line, limit: nat, row: nat): (r: Option<Position>)
    decreases |content| - row
    ensures r.Some? ==> row <= r.value.row < limit && Hit(content, pat, r.value)
    ensures r.Some? ==> forall q: Position | row <= q.row && Hit(content, pat, q) :: !Lex(q, r.value)
    ensures r.None? ==> forall q: Position | row <= q.row < limit :: !Hit(content, pat, q)
  {
    if row >= |content| || row >= limit then None
    else
      match Find(content[row], pat)
      case Some(col) => Some(Position(row, col))
      case None => ScanWrapRows(content, pat, limit, row + 1)
  }

  /** Where `search_in_buffer` puts the cursor, if anywhere: first the rest
      of the cursor row and the rows below, then, wrapping, the rows above. */
  function ForwardMatch(content: seq<Line>, pos: Position, pat: Line): Option<Position> {
    match ScanForwardRows(content, pat, pos, pos.row)
    case Some(p) => Some(p)
    case None => ScanWrapRows(content, pat, pos.row, 0)
  }

  /** The order forward search visits positions in: the cursor row and the
      rows below it before the rows above it, each part in reading order. */
  predicate ForwardBefore(pos: Position, p: Position, q: Position) {
    if (p.row >= pos.row) == (q.row >= pos.row) then Lex(p, q) else p.row >= pos.row
  }

  /** Forward search lands on the first occurrence in its visiting order
      that lies after the cursor, and finds nothing exactly when every
      occurrence lies on the cursor row at or before the cursor. */
  lemma ForwardMatchIsFirstInSearchOrder(content: seq<Line>, pos: Position, pat: Line)
    requires pat != []
    ensures var r := ForwardMatch(content, pos, pat);
            (r.Some? ==> Hit(content, pat, r.value) && AfterCursor(pos, r.value)) &&
            (r.Some? ==> forall q: Position | Hit(content, pat, q) && AfterCursor(pos, q) :: !ForwardBefore(pos, q, r.value)) &&
            (r.None? <==> forall q: Position | Hit(content, pat, q) :: !AfterCursor(pos, q))
  {
  }

  /** The method form of the two loops, with their early returns. */
  method FindForward(content: seq<Line>, pos: Position, pat: Line) returns (r: Option<Position>)
    ensures r == ForwardMatch(content, pos, pat)
  {
    var row := pos.row;
    while row < |content|
      invariant pos.row <= row
      invariant ScanForwardRows(content, pat, pos, row) == ScanForwardRows(content, pat, pos, pos.row)
      decreases |content| - row
    {
      var line := content[row];
      var start := if row == pos.row then pos.col + 1 else 0;
      var k := Find(line[if start < |line| then start else |line|..], pat);
      if k.Some? {
        return Some(Position(row, start + k.value));
      }
      row := row + 1;
    }
    row := 0;
    while row < |content| && row < pos.row
      invariant ScanWrapRows(content, pat, pos.row, row) == ScanWrapRows(content, pat, pos.row, 0)
      decreases |content| - row
    {
      var k := Find(content[row], pat);
      if k.Some? {
        return Some(Position(row, k.value));
      }
      row := row + 1;
    }
    return None;
  }

  // ---------------------------------------------------------------------
  // Backward search (`search_backward_in_buffer`)
  // ---------------------------------------------------------------------

  /** On the cursor row, backward search only looks at the first
      `col - 1` characters (none when the cursor is in column 0 or 1). */
  function BackwardEnd(pos: Position): nat {
    if pos.col > 0 then pos.col - 1 else 0
  }

  /** An occurrence backward search may find: on the cursor row it must end
      within the first `BackwardEnd(pos)` characters. */
  predicate BeforeCursor(pos: Position, pat: Line, q: Position) {
    q.row != pos.row || q.col + |pat| <= BackwardEnd(pos)
  }

  /** `line[..min(end, len)].rfind(pat)`: the rightmost occurrence that ends
      by index `end`. */
  function RFindInRowTo(line: Line, pat: Line, end: nat): (r: Option<nat>)
    ensures r.Some? ==> MatchAt(line, pat, r.value) && r.value + |pat| <= end
    ensures r.Some? ==> forall j: nat | r.value < j && j + |pat| <= end :: !MatchAt(line, pat, j)
    ensures r.None? ==> forall j: nat | j + |pat| <= end :: !MatchAt(line, pat, j)
  {
    var e := if end < |line| then end else |line|;
    assert forall j: nat :: MatchAt(line[..e], pat, j) <==> MatchAt(line, pat, j) && j + |pat| <= e by {
      forall j: nat ensures MatchAt(line[..e], pat, j) <==> MatchAt(line, pat, j) && j + |pat| <= e {
        MatchInPrefix(line, pat, e, j);
      }
    }
    RFind(line[..e], pat)
  }

  /** The first loop of `search_backward_in_buffer` over rows `top - 1`
      down to row 0: the last occurrence, in reading order, that backward
      search may find there. */
  function ScanBackwardRows(content: seq<Line>, pat: Line, pos: Position, top: nat): (r: Option<Position>)
    requires top <= |content|
    ensures r.Some? ==> r.value.row < top && Hit(content, pat, r.value) && BeforeCursor(pos, pat, r.value)
    ensures r.Some? ==>
      forall q: Position | q.row < top && Hit(content, pat, q) && BeforeCursor(pos, pat, q) :: !Lex(r.value, q)
    ensures r.None? ==> forall q: Position | q.row < top && Hit(content, pat, q) :: !BeforeCursor(pos, pat, q)
  {
    if top == 0 then None
    else
      var line := content[top - 1];
      match RFindInRowTo(line, pat, if top - 1 == pos.row then BackwardEnd(pos) else |line|)
      case Some(col) => Some(Position(top - 1, col))
      case None => ScanBackwardRows(content, pat, pos, top - 1)
  }

  /** The second loop of `search_backward_in_buffer`: rows `top - 1` down
      to `low`; the rightmost occurrence in the highest row that has one. */
  function ScanBackwardWrap(content: seq<Line>, pat: Line, low: nat, top: nat): (r: Option<Position>)
    requires top <= |content|
    ensures r.Some? ==> low <= r.value.row < top && Hit(content, pat, r.value)
    ensures r.Some? ==> forall q: Position | q.row < top && Hit(content, pat, q) :: !Lex(r.value, q)
    ensures r.None? ==> forall q: Position | low <= q.row < top :: !Hit(content, pat, q)
  {
    if top <= low then None
    else
      match RFind(content[top - 1], pat)
      case Some(col) => Some(Position(top - 1, col))
      case None => ScanBackwardWrap(content, pat, low, top - 1)
  }

  /** Where `search_backward_in_buffer` puts the cursor, if anywhere: first
      the start of the cursor row and the rows above, then, wrapping, the
      rows below. Indexing the cursor row panics when it does not exist. */
  function BackwardMatch(content: seq<Line>, pos: Position, pat: Line): Option<Position>
    requires pos.row < |content|
  {
    match ScanBackwardRows(content, pat, pos, pos.row + 1)
    case Some(p) => Some(p)
    case None => ScanBackwardWrap(content, pat, pos.row + 1, |content|)
  }

  /** The order backward search visits positions in: the cursor row and the
      rows above it before the rows below it, each part in reverse reading
      order. */
  predicate BackwardBefore(pos: Position, p: Position, q: Position) {
    if (p.row <= pos.row) == (q.row <= pos.row) then Lex(q, p) else p.row <= pos.row
  }

  /** Backward search lands on the first occurrence in its visiting order
      that it may find, and finds nothing exactly when there is none. */
  lemma BackwardMatchIsFirstInSearchOrder(content: seq<Line>, pos: Position, pat: Line)
    requires pos.row < |content|
    ensures var r := BackwardMatch(content, pos, pat);
            (r.Some? ==> Hit(content, pat, r.value) && BeforeCursor(pos, pat, r.value)) &&
            (r.Some? ==> forall q: Position | Hit(content, pat, q) && BeforeCursor(pos, pat, q) :: !BackwardBefore(pos, q, r.value)) &&
            (r.None? <==> forall q: Position | Hit(content, pat, q) :: !BeforeCursor(pos, pat, q))
  {
  }

  /** With the cursor in column 0 or 1 backward search skips the cursor row
      (until it wraps back to it, which it never does). */
  lemma BackwardSearchSkipsCursorRowNearLineStart(content: seq<Line>, pos: Position, pat: Line)
    requires pos.row < |content| && pos.col <= 1 && pat != []
    ensures var r := BackwardMatch(content, pos, pat);
            r.Some? ==> r.value.row != pos.row
  {
  }

  /** The method form of the two loops, with their early returns. */
  method FindBackward(content: seq<Line>, pos: Position, pat: Line) returns (r: Option<Position>)
    requires pos.row < |content|
    ensures r == BackwardMatch(content, pos, pat)
  {
    r := ScanBackwardRowsLoop(content, pos, pat);
    if r.None? {
      r := ScanBackwardWrapLoop(content, pos, pat);
    }
  }

  /** The first loop of `search_backward_in_buffer`: the cursor row, up to
      just before the cursor, and then each row above it. */
  method ScanBackwardRowsLoop(content: seq<Line>, pos: Position, pat: Line) returns (r: Option<Position>)
    requires pos.row < |content|
    ensures r == ScanBackwardRows(content, pat, pos, pos.row + 1)
  {
    var startCol := if pos.col > 0 then pos.col - 1 else 0;
    var i: nat := pos.row + 1;
    while i > 0
      invariant i <= pos.row + 1
      invariant ScanBackwardRows(content, pat, pos, i) == ScanBackwardRows(content, pat, pos, pos.row + 1)
    {
      var row := i - 1;
      var line := content[row];
      var end := if row == pos.row then startCol else |line|;
      var k := RFind(line[..if end < |line| then end else |line|], pat);
      assert k == RFindInRowTo(line, pat, if row == pos.row then BackwardEnd(pos) else |line|);
      if k.Some? {
        return Some(Position(row, k.value));
      }
      i := i - 1;
    }
    return None;
  }

  /** The second loop of `search_backward_in_buffer`: from the last row
      down to the row below the cursor. */
  method ScanBackwardWrapLoop(content: seq<Line>, pos: Position, pat: Line) returns (r: Option<Position>)
    requires pos.row < |content|
    ensures r == ScanBackwardWrap(content, pat, pos.row + 1, |content|)
  {
    var top: nat := |content|;
    while top > pos.row + 1
      invariant top <= |content|
      invariant ScanBackwardWrap(content, pat, pos.row + 1, top) == ScanBackwardWrap(content, pat, pos.row + 1, |content|)
    {
      var k := RFind(content[top - 1], pat);
      if k.Some? {
        return Some(Position(top - 1, k.value));
      }
      top := top - 1;
    }
    return None;
  }

  // ---------------------------------------------------------------------
  // The word under the cursor (`get_word_under_cursor`)
  // ---------------------------------------------------------------------

  /** `s..e` is a whole run of alphanumeric characters of `line`. */
  predicate MaximalRun(cls: Classifier, line: Line, s: nat, e: nat) {
    s <= e <= |line| &&
    (forall i | s <= i < e :: cls.isAlphanumeric(line[i])) &&
    (s == 0 || !cls.isAlphanumeric(line[s - 1])) &&
    (e == |line| || !cls.isAlphanumeric(line[e]))
  }

  /** The word `get_word_under_cursor` returns for column `col` of `line`:
      none past the end of the line; otherwise the alphanumerics reaching
      left from just before `col` and right from `col`, if there are any. */
  function WordAt(cls: Classifier, line: Line, col: nat): Option<Line> {
    if col >= |line| then None
    else
      var start := SkipRunBackward(cls, Alphanumeric, line, col);
      var end := SkipForward(cls, Alphanumeric, line, col);
      if end > start then Some(line[start..end]) else None
  }

  /** There is a word exactly when the cursor is on the line and on an
      alphanumeric or just right of one (so a cursor just past a word yields
      that word), and the word is then the whole alphanumeric run around the
      cursor. */
  lemma WordAtIsRunAroundCursor(cls: Classifier, line: Line, col: nat)
    ensures var r := WordAt(cls, line, col);
            (r.Some? <==> col < |line| && (cls.isAlphanumeric(line[col]) || (col > 0 && cls.isAlphanumeric(line[col - 1]))))
    ensures var r := WordAt(cls, line, col);
            r.Some? ==> exists s: nat, e: nat | s <= col <= e && s < e :: MaximalRun(cls, line, s, e) && r.value == line[s..e]
  {
    if col < |line| {
      var start := SkipRunBackward(cls, Alphanumeric, line, col);
      var end := SkipForward(cls, Alphanumeric, line, col);
      if end > start {
        forall i | start <= i < end ensures cls.isAlphanumeric(line[i]) {
          if i < col {
            assert HasAt(cls, Alphanumeric, line, i);
          } else {
            assert In(cls, Alphanumeric, line[i]);
          }
        }
        assert MaximalRun(cls, line, start, end);
      }
    }
  }

  /** The method form, with the source's two `while` loops. */
  method WordAround(cls: Classifier, line: Line, col: nat) returns (r: Option<Line>)
    ensures r == WordAt(cls, line, col)
  {
    if col >= |line| {
      return None;
    }
    var start := ScanRunBackward(cls, Alphanumeric, line, col);
    var end := ScanForward(cls, Alphanumeric, line, col);
    if end > start {
      r := Some(line[start..end]);
    } else {
      r := None;
    }
  }
}
