/** The list logic of the fuzzy picker of src/picker.rs, on values: the
    wrap-around selection, the case-insensitive substring filter, the
    selection of the highlighted item, the key handler, and the parser of
    `file:line:content` lines produced by the grep tools. */
module Pickers {
  import opened Basics
  import opened Text
  import opened Keys

  /** `PickerType`; the grep query string it carries is never read. */
  datatype PickerKind = Files | Grep(query: Line) | Buffers

  /** `PickerItem`. */
  datatype PickerItem = PickerItem(
    display: Line,
    path: Option<Line>,
    bufferId: Option<nat>,
    lineNumber: Option<nat>,
    matchText: Option<Line>)

  /** `PickerResult`. */
  datatype PickerResult = PickerResult(selectedFile: Option<Line>, selectedBufferId: Option<nat>)

  /** The fields of `Picker` the list logic uses; `selected` is the
      selection held by the list widget state. */
  datatype PickerState = PickerState(
    kind: PickerKind,
    items: seq<PickerItem>,
    filtered: seq<nat>,
    selected: Option<nat>,
    input: Line)

  /** `(0..n).collect()`. */
  function Range(n: nat): (r: seq<nat>)
    ensures |r| == n && forall k | 0 <= k < n :: r[k] == k
  {
    if n == 0 then [] else Range(n - 1) + [n - 1]
  }

  /** A fresh picker over `items`: everything shown, the first item
      selected when there is one, an empty query. */
  function Open(kind: PickerKind, items: seq<PickerItem>): PickerState {
    PickerState(kind, items, Range(|items|), if items == [] then None else Some(0), [])
  }

  /** The picker's own invariant: a selection exists exactly when the list
      shows something and then points into it, and every shown index names
      an item. */
  predicate Consistent(s: PickerState) {
    (s.selected.None? <==> s.filtered == []) &&
    (s.selected.Some? ==> s.selected.value < |s.filtered|) &&
    (forall k | 0 <= k < |s.filtered| :: s.filtered[k] < |s.items|)
  }

  // ---------------------------------------------------------------------
  // Selection
  // ---------------------------------------------------------------------

  /** `move_selection_up`: one up, from the top to the bottom; no
      selection counts as the top. */
  function MoveSelectionUp(s: PickerState): PickerState {
    if s.filtered == [] then s
    else
      var sel := if s.selected.Some? then s.selected.value else 0;
      s.(selected := Some(if sel > 0 then sel - 1 else |s.filtered| - 1))
  }

  /** `move_selection_down`: one down, from the bottom to the top. */
  function MoveSelectionDown(s: PickerState): PickerState {
    if s.filtered == [] then s
    else
      var sel := if s.selected.Some? then s.selected.value else 0;
      s.(selected := Some(if sel + 1 < |s.filtered| then sel + 1 else 0))
  }

  /** `select_current`: the path and buffer id of the highlighted item, or
      nothing when there is no selection or it points nowhere. */
  function SelectCurrent(s: PickerState): PickerResult {
    if s.selected.Some? && s.selected.value < |s.filtered| && s.filtered[s.selected.value] < |s.items| then
      var item := s.items[s.filtered[s.selected.value]];
      PickerResult(item.path, item.bufferId)
    else PickerResult(None, None)
  }

  // ---------------------------------------------------------------------
  // Filtering
  // ---------------------------------------------------------------------

  /** `display.to_lowercase().contains(&input.to_lowercase())`, with the
      lower-casing a parameter. */
  predicate Matches(lower: Line -> Line, item: PickerItem, query: Line) {
    Find(lower(item.display), lower(query)).Some?
  }

  /** The indices, in increasing order, of the items that match `query`. */
  function Filter(lower: Line -> Line, items: seq<PickerItem>, query: Line): (r: seq<nat>)
    ensures forall k | 0 <= k < |r| :: r[k] < |items| && Matches(lower, items[r[k]], query)
    ensures forall k, l | 0 <= k < l < |r| :: r[k] < r[l]
    ensures forall i | 0 <= i < |items| && Matches(lower, items[i], query) :: i in r
  {
    if items == [] then []
    else
      var n := |items| - 1;
      var front := Filter(lower, items[..n], query);
      assert forall k | 0 <= k < |front| :: items[front[k]] == items[..n][front[k]];
      front + (if Matches(lower, items[n], query) then [n] else [])
  }

  /** `update_filter`: the empty query shows every item; Files and Buffers
      pickers keep the matching items; a Grep picker replaces its items
      with the result of a grep run; then the first entry is selected. */
  function UpdateFilter(cls: Classifier, lower: Line -> Line, s: PickerState, grepOutput: Option<seq<char>>): PickerState {
    var shown :=
      if s.input == [] then s.(filtered := Range(|s.items|))
      else match s.kind
        case Grep(_) =>
          var items := GrepSearch(cls, s.input, grepOutput);
          s.(items := items, filtered := Range(|items|))
        case _ => s.(filtered := Filter(lower, s.items, s.input));
    shown.(selected := if shown.filtered == [] then None else Some(0))
  }

  // ---------------------------------------------------------------------
  // Keys
  // ---------------------------------------------------------------------

  /** `handle_key`: Esc and every key but Enter report nothing; Enter
      reports the selection; arrows move it; characters and Backspace edit
      the query and re-filter. */
  function HandleKey(cls: Classifier, lower: Line -> Line, s: PickerState, key: KeyEvent, grepOutput: Option<seq<char>>): (PickerState, Option<PickerResult>) {
    match key.code
    case Esc => (s, None)
    case Enter => (s, Some(SelectCurrent(s)))
    case Up => (MoveSelectionUp(s), None)
    case Down => (MoveSelectionDown(s), None)
    case Char(c) => (UpdateFilter(cls, lower, s.(input := s.input + [c]), grepOutput), None)
    case Backspace =>
      var input := if s.input == [] then [] else s.input[..|s.input| - 1];
      (UpdateFilter(cls, lower, s.(input := input), grepOutput), None)
    case _ => (s, None)
  }

  // ---------------------------------------------------------------------
  // Grep output
  // ---------------------------------------------------------------------

  /** At most this many output lines are read. */
  const MaxGrepLines: nat := 100

  /** One more than the largest `usize` of a 64-bit target. */
  const UsizeLimit: nat := 0x1_0000_0000_0000_0000

  /** The first occurrence of `c` in `s`. */
  function IndexOf(s: Line, c: char): (r: Option<nat>)
    ensures r.Some? ==> r.value < |s| && s[r.value] == c && c !in s[..r.value]
    ensures r.None? ==> c !in s
  {
    if s == [] then None
    else if s[0] == c then Some(0)
    else match IndexOf(s[1..], c)
      case None => None
      case Some(i) =>
        assert s[..i + 1] == [s[0]] + s[1..][..i];
        Some(i + 1)
  }

  /** Splits `s` at its first colon, if it has one. */
  function SplitAtColon(s: Line): (r: Option<(Line, Line)>)
    ensures r.None? <==> ':' !in s
    ensures r.Some? ==> s == r.value.0 + ":" + r.value.1 && ':' !in r.value.0
  {
    match IndexOf(s, ':')
    case None => None
    case Some(i) =>
      assert s == s[..i] + [s[i]] + s[i + 1..];
      Some((s[..i], s[i + 1..]))
  }

  /** `line.splitn(3, ':')`: split at the first two colons; the last part
      keeps any further colon. */
  function SplitColon3(line: Line): (parts: seq<Line>)
    ensures 1 <= |parts| <= 3
    ensures |parts| == 1 ==> parts[0] == line
    ensures |parts| == 2 ==> line == parts[0] + ":" + parts[1]
    ensures |parts| == 3 ==> line == parts[0] + ":" + parts[1] + ":" + parts[2]
    ensures |parts| >= 2 ==> ':' !in parts[0]
    ensures |parts| == 3 ==> ':' !in parts[1]
    ensures |parts| < 3 ==> ':' !in parts[|parts| - 1]
  {
    match SplitAtColon(line)
    case None => [line]
    case Some((file, rest)) =>
      match SplitAtColon(rest)
      case None => [file, rest]
      case Some((number, content)) =>
        JoinAssoc(file, number, content);
        [file, number, content]
  }

  lemma JoinAssoc(a: Line, b: Line, c: Line)
    ensures a + ":" + b + ":" + c == a + ":" + (b + ":" + c)
  {
  }

  predicate IsDigit(c: char) {
    '0' <= c <= '9'
  }

  /** The number an all-digit string writes in decimal. */
  function DigitsValue(d: Line): nat
    requires forall k | 0 <= k < |d| :: IsDigit(d[k])
  {
    if d == [] then 0
    else
      assert IsDigit(d[|d| - 1]);
      DigitsValue(d[..|d| - 1]) * 10 + (d[|d| - 1] as int - '0' as int)
  }

  /** A non-empty run of ASCII digits. */
  predicate IsDecimal(d: Line) {
    d != [] && forall k | 0 <= k < |d| :: IsDigit(d[k])
  }

  /** The text after an optional leading '+'. */
  function Unsigned(s: Line): Line {
    if |s| > 0 && s[0] == '+' then s[1..] else s
  }

  /** `str::parse::<usize>()`: an optional '+' and then at least one ASCII
      digit, with a value below the `usize` limit. */
  function ParseUsize(s: Line): (r: Option<nat>)
    ensures r.Some? ==> r.value < UsizeLimit && s != [] && s != "+"
    ensures r.Some? <==> IsDecimal(Unsigned(s)) && DigitsValue(Unsigned(s)) < UsizeLimit
    ensures r.Some? ==> IsDecimal(Unsigned(s)) && r.value == DigitsValue(Unsigned(s))
  {
    var d := Unsigned(s);
    if IsDecimal(d) && DigitsValue(d) < UsizeLimit then Some(DigitsValue(d))
    else None
  }

  /** The picker item of one grep output line: file, line number and the
      matched text; a line with fewer than two colons gives none. */
  function GrepItem(line: Line): Option<PickerItem> {
    var parts := SplitColon3(line);
    if |parts| < 3 then None
    else Some(PickerItem(
      parts[0] + ":" + parts[1] + ": " + parts[2],
      Some(parts[0]),
      None,
      ParseUsize(parts[1]),
      Some(parts[2])))
  }

  /** The items of the given output lines, in order. */
  function GrepItems(lines: seq<Line>): (r: seq<PickerItem>)
    ensures |r| <= |lines|
    ensures forall k | 0 <= k < |r| :: r[k].path.Some? && r[k].bufferId.None? && r[k].matchText.Some?
  {
    if lines == [] then []
    else
      var n := |lines| - 1;
      var front := GrepItems(lines[..n]);
      match GrepItem(lines[n])
      case None => front
      case Some(item) => front + [item]
  }

  /** Reading one more line adds its item, if it has one. */
  lemma GrepItemsOfOneMore(lines: seq<Line>, i: nat)
    requires i < |lines|
    ensures GrepItems(lines[..i + 1]) ==
            GrepItems(lines[..i]) + (match GrepItem(lines[i]) case None => [] case Some(item) => [item])
  {
    assert lines[..i + 1][..i] == lines[..i];
  }

  /** The first lines of the output that are read. */
  function FirstLines(lines: seq<Line>): (r: seq<Line>)
    ensures |r| <= MaxGrepLines && r <= lines
    ensures |lines| <= MaxGrepLines ==> r == lines
  {
    if |lines| <= MaxGrepLines then lines else lines[..MaxGrepLines]
  }

  /** The items `perform_grep_search` builds from a tool's standard output. */
  function ParseGrepOutput(output: seq<char>): seq<PickerItem> {
    GrepItems(FirstLines(Lines(output)))
  }

  /** `perform_grep_search`: a blank query or a tool that could not be run
      gives no items. */
  function GrepSearch(cls: Classifier, input: Line, grepOutput: Option<seq<char>>): seq<PickerItem> {
    if Trim(cls, input) == [] then []
    else match grepOutput
      case None => []
      case Some(output) => ParseGrepOutput(output)
  }
}
