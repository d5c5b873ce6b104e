/** What the picker of src/picker.rs promises: the selection wraps around
    and stays inside the shown list, the filter keeps exactly the matching
    items in order, only Enter reports a choice, and the grep line parser
    undoes the `file:line:content` format. */
module PickerProperties {
  import opened Basics
  import opened Text
  import opened Keys
  import opened Pickers

  // ---------------------------------------------------------------------
  // Selection
  // ---------------------------------------------------------------------

  /** On a non-empty list both moves wrap around: down adds one and up
      subtracts one, modulo the length of the shown list; on an empty list
      neither move does anything. */
  lemma SelectionWrapsAround(s: PickerState)
    requires Consistent(s)
    ensures s.filtered == [] ==> MoveSelectionUp(s) == s && MoveSelectionDown(s) == s
    ensures s.filtered != [] ==>
              MoveSelectionDown(s) == s.(selected := Some((s.selected.value + 1) % |s.filtered|)) &&
              MoveSelectionUp(s) == s.(selected := Some((s.selected.value + |s.filtered| - 1) % |s.filtered|))
    ensures Consistent(MoveSelectionUp(s)) && Consistent(MoveSelectionDown(s))
  {
    if s.filtered != [] {
      var n := |s.filtered|;
      var sel := s.selected.value;
      NextModulo(sel, n);
      PreviousModulo(sel, n);
    }
  }

  lemma NextModulo(a: nat, n: nat)
    requires a < n
    ensures (a + 1) % n == if a + 1 < n then a + 1 else 0
  {
  }

  lemma PreviousModulo(a: nat, n: nat)
    requires a < n
    ensures (a + n - 1) % n == if a > 0 then a - 1 else n - 1
  {
    if a > 0 {
      assert a + n - 1 == (a - 1) + n;
    }
  }

  /** Moving up undoes moving down and the other way round. */
  lemma MovesUndoEachOther(s: PickerState)
    requires Consistent(s)
    ensures MoveSelectionUp(MoveSelectionDown(s)) == s
    ensures MoveSelectionDown(MoveSelectionUp(s)) == s
  {
  }

  /** With a consistent state, Enter reports the path and buffer id of the
      item at the highlighted position of the shown list, and nothing when
      the list is empty. */
  lemma SelectCurrentReportsHighlightedItem(s: PickerState)
    requires Consistent(s)
    ensures s.filtered == [] ==> SelectCurrent(s) == PickerResult(None, None)
    ensures s.filtered != [] ==>
              var item := s.items[s.filtered[s.selected.value]];
              SelectCurrent(s) == PickerResult(item.path, item.bufferId)
  {
  }

  // ---------------------------------------------------------------------
  // Filtering
  // ---------------------------------------------------------------------

  /** After re-filtering the state is consistent with the first entry
      selected; an empty query shows every item; a Files or Buffers picker
      keeps its items and shows exactly the matching ones, in order; a Grep
      picker shows every item the grep run produced. */
  lemma UpdateFilterShowsMatches(cls: Classifier, lower: Line -> Line, s: PickerState, grepOutput: Option<seq<char>>)
    ensures var r := UpdateFilter(cls, lower, s, grepOutput);
            Consistent(r) && r.kind == s.kind && r.input == s.input &&
            (r.selected == Some(0) <==> r.filtered != [])
    ensures var r := UpdateFilter(cls, lower, s, grepOutput);
            s.input == [] ==> r.items == s.items && r.filtered == Range(|s.items|)
    ensures var r := UpdateFilter(cls, lower, s, grepOutput);
            s.input != [] && !s.kind.Grep? ==>
              r.items == s.items &&
              (forall i | 0 <= i < |s.items| :: i in r.filtered <==> Matches(lower, s.items[i], s.input)) &&
              (forall k, l | 0 <= k < l < |r.filtered| :: r.filtered[k] < r.filtered[l])
    ensures var r := UpdateFilter(cls, lower, s, grepOutput);
            s.input != [] && s.kind.Grep? ==>
              r.items == GrepSearch(cls, s.input, grepOutput) && r.filtered == Range(|r.items|)
  {
  }

  /** A character typed and then erased leaves a Files or Buffers picker
      as a re-filter on the original query would. */
  lemma TypingThenErasingRefilters(cls: Classifier, lower: Line -> Line, s: PickerState, c: char, ctrl: bool, grepOutput: Option<seq<char>>)
    requires !s.kind.Grep?
    ensures var typed := HandleKey(cls, lower, s, KeyEvent(Char(c), ctrl), grepOutput).0;
            HandleKey(cls, lower, typed, KeyEvent(Backspace, ctrl), grepOutput) == (UpdateFilter(cls, lower, s, grepOutput), None)
  {
    var typed := HandleKey(cls, lower, s, KeyEvent(Char(c), ctrl), grepOutput).0;
    assert typed.input == s.input + [c] && typed.items == s.items && typed.kind == s.kind;
    assert typed.input[..|typed.input| - 1] == s.input;
  }

  // ---------------------------------------------------------------------
  // Keys
  // ---------------------------------------------------------------------

  /** Only Enter reports a result: Esc, which cancels, reports nothing,
      just like typing or moving the selection. */
  lemma OnlyEnterReports(cls: Classifier, lower: Line -> Line, s: PickerState, key: KeyEvent, grepOutput: Option<seq<char>>)
    ensures HandleKey(cls, lower, s, key, grepOutput).1.Some? <==> key.code.Enter?
    ensures key.code.Esc? ==> HandleKey(cls, lower, s, key, grepOutput) == (s, None)
  {
  }

  /** Every key keeps the picker consistent. */
  lemma HandleKeyKeepsConsistent(cls: Classifier, lower: Line -> Line, s: PickerState, key: KeyEvent, grepOutput: Option<seq<char>>)
    requires Consistent(s)
    ensures Consistent(HandleKey(cls, lower, s, key, grepOutput).0)
  {
    match key.code {
      case Up => SelectionWrapsAround(s);
      case Down => SelectionWrapsAround(s);
      case Char(c) => UpdateFilterShowsMatches(cls, lower, s.(input := s.input + [c]), grepOutput);
      case Backspace =>
        var input := if s.input == [] then [] else s.input[..|s.input| - 1];
        UpdateFilterShowsMatches(cls, lower, s.(input := input), grepOutput);
      case _ =>
    }
  }

  /** A freshly opened picker is consistent. */
  lemma OpenIsConsistent(kind: PickerKind, items: seq<PickerItem>)
    ensures Consistent(Open(kind, items))
    ensures Open(kind, items).selected.Some? <==> items != []
  {
  }

  // ---------------------------------------------------------------------
  // Grep output
  // ---------------------------------------------------------------------

  /** The first colon of `prefix + ":" + rest`, when `prefix` has none. */
  lemma FirstColon(prefix: Line, rest: Line)
    requires ':' !in prefix
    ensures IndexOf(prefix + ":" + rest, ':') == Some(|prefix|)
  {
    var s := prefix + ":" + rest;
    assert s[|prefix|] == ':';
    assert s[..|prefix|] == prefix;
  }

  /** `splitn(3, ':')` undoes joining a colon-free file and line number
      with the rest of the line. */
  lemma SplitUndoesJoin(file: Line, number: Line, content: Line)
    requires ':' !in file && ':' !in number
    ensures SplitColon3(file + ":" + number + ":" + content) == [file, number, content]
  {
    var line := file + ":" + number + ":" + content;
    FirstColon(file, number + ":" + content);
    assert line == file + ":" + (number + ":" + content);
    assert line[|file| + 1..] == number + ":" + content;
    FirstColon(number, content);
    var rest := number + ":" + content;
    assert rest[..|number|] == number && rest[|number| + 1..] == content;
    assert line[..|file|] == file;
  }

  /** A grep line of the form file:line:content becomes the item with
      display "file:line: content", that file as path, no buffer, the line
      number when it parses and the content as matched text. */
  lemma GrepLineRoundTrip(file: Line, number: Line, content: Line)
    requires ':' !in file && ':' !in number
    ensures GrepItem(file + ":" + number + ":" + content) ==
            Some(PickerItem(file + ":" + number + ": " + content, Some(file), None, ParseUsize(number), Some(content)))
  {
    SplitUndoesJoin(file, number, content);
  }

  /** A line yields an item exactly when it holds at least two colons. */
  lemma GrepLineNeedsTwoColons(line: Line)
    ensures GrepItem(line).Some? <==> exists i, j | 0 <= i < j < |line| :: line[i] == ':' && line[j] == ':'
  {
    var parts := SplitColon3(line);
    if |parts| == 3 {
      var i := |parts[0]|;
      var j := |parts[0]| + 1 + |parts[1]|;
      assert line[i] == ':' && line[j] == ':';
    } else {
      forall i, j | 0 <= i < j < |line| && line[i] == ':'
        ensures line[j] != ':'
      {
        if |parts| == 2 && j > |parts[0]| {
          assert line[j] == parts[1][j - |parts[0]| - 1];
        }
      }
    }
  }

  /** `item` is what one of `lines` parses to. */
  predicate ItemOfSomeLine(lines: seq<Line>, item: PickerItem) {
    exists i | 0 <= i < |lines| :: GrepItem(lines[i]) == Some(item)
  }

  /** Every item built from some lines is the item of one of them. */
  lemma {:induction false} GrepItemsComeFromLines(lines: seq<Line>)
    ensures forall k | 0 <= k < |GrepItems(lines)| :: ItemOfSomeLine(lines, GrepItems(lines)[k])
  {
    if lines != [] {
      var n := |lines| - 1;
      var front := GrepItems(lines[..n]);
      GrepItemsComeFromLines(lines[..n]);
      var last := GrepItem(lines[n]);
      var r := GrepItems(lines);
      assert r == front + (if last.Some? then [last.value] else []);
      forall k | 0 <= k < |r|
        ensures ItemOfSomeLine(lines, r[k])
      {
        if k < |front| {
          assert r[k] == front[k] && ItemOfSomeLine(lines[..n], front[k]);
          ItemOfFrontLine(lines, n, r[k]);
        } else {
          assert last == Some(r[k]);
        }
      }
    }
  }

  /** The item of a line among the first `n` is the item of a line. */
  lemma ItemOfFrontLine(lines: seq<Line>, n: nat, item: PickerItem)
    requires n <= |lines| && ItemOfSomeLine(lines[..n], item)
    ensures ItemOfSomeLine(lines, item)
  {
    var i :| 0 <= i < n && GrepItem(lines[..n][i]) == Some(item);
    assert lines[i] == lines[..n][i];
  }

  /** At most `MaxGrepLines` output lines are read, so at most that many
      items are built; each names a file and no buffer, and is the item of
      one of the lines read, which are the first lines of the output. */
  lemma GrepOutputIsBounded(output: seq<char>)
    ensures |ParseGrepOutput(output)| <= MaxGrepLines
    ensures forall k | 0 <= k < |ParseGrepOutput(output)| ::
              ParseGrepOutput(output)[k].path.Some? && ParseGrepOutput(output)[k].bufferId.None? &&
              ItemOfSomeLine(FirstLines(Lines(output)), ParseGrepOutput(output)[k])
  {
    GrepItemsComeFromLines(FirstLines(Lines(output)));
  }

  /** The decimal digits of `n`, as `usize::to_string` writes them. */
  function Decimal(n: nat): (d: Line)
    ensures d != [] && forall k | 0 <= k < |d| :: IsDigit(d[k])
  {
    var last := [('0' as int + n % 10) as char];
    if n < 10 then last else Decimal(n / 10) + last
  }

  /** The digits of `n` are worth `n`. */
  lemma {:induction false} DecimalValue(n: nat)
    ensures DigitsValue(Decimal(n)) == n
  {
    var d := Decimal(n);
    if n >= 10 {
      DecimalValue(n / 10);
      assert d[..|d| - 1] == Decimal(n / 10);
    }
  }

  /** Parsing the decimal form of a `usize`, with or without a leading '+',
      gives it back; the empty string and a lone '+' are not numbers. */
  lemma ParseUsizeReadsDecimal(n: nat)
    requires n < UsizeLimit
    ensures ParseUsize(Decimal(n)) == Some(n)
    ensures ParseUsize("+" + Decimal(n)) == Some(n)
    ensures ParseUsize("") == None && ParseUsize("+") == None
  {
    DecimalValue(n);
    assert ("+" + Decimal(n))[1..] == Decimal(n);
  }
}
