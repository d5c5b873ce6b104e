/** `Picker` of src/picker.rs as a class: the selection, the shown indices,
    the query and (for a grep picker) the items are updated in place. Every
    method is proved to do what the functions of module Pickers say. */
module PickerControl {
  import opened Basics
  import opened Text
  import opened Keys
  import opened Pickers

  /** The parsing loop of `perform_grep_search`: one item per well-formed
      line among the first `MaxGrepLines` lines. */
  method ReadGrepLines(lines: seq<Line>) returns (found: seq<PickerItem>)
    ensures found == GrepItems(FirstLines(lines))
  {
    found := [];
    var i := 0;
    while i < |lines| && i < MaxGrepLines
      invariant i <= |lines| && i <= MaxGrepLines
      invariant found == GrepItems(lines[..i])
    {
      GrepItemsOfOneMore(lines, i);
      var item := GrepItem(lines[i]);
      if item.Some? {
        found := found + [item.value];
      }
      i := i + 1;
    }
    assert lines[..i] == FirstLines(lines);
  }

  /** The items of `perform_grep_search`: none for a blank query or a tool
      that could not be run, otherwise the parsed output lines. */
  method GrepSearchItems(cls: Classifier, input: Line, grepOutput: Option<seq<char>>) returns (found: seq<PickerItem>)
    ensures found == GrepSearch(cls, input, grepOutput)
  {
    found := [];
    if Trim(cls, input) != [] && grepOutput.Some? {
      found := ReadGrepLines(Lines(grepOutput.value));
    }
  }

  class Picker {
    var kind: PickerKind
    var items: seq<PickerItem>
    var filtered: seq<nat>
    var selected: Option<nat>
    var input: Line

    function State(): PickerState
      reads this
    {
      PickerState(kind, items, filtered, selected, input)
    }

    /** The common end of `new_file_picker`, `new_grep_picker` and
        `new_buffer_picker`, over the items they collected. */
    constructor (k: PickerKind, collected: seq<PickerItem>)
      ensures State() == Open(k, collected)
    {
      kind := k;
      items := collected;
      filtered := Range(|collected|);
      selected := if collected == [] then None else Some(0);
      input := [];
    }

    method MoveSelectionUp()
      modifies this
      ensures State() == Pickers.MoveSelectionUp(old(State()))
    {
      if filtered != [] {
        var sel := if selected.Some? then selected.value else 0;
        var next := if sel > 0 then sel - 1 else |filtered| - 1;
        selected := Some(next);
      }
    }

    method MoveSelectionDown()
      modifies this
      ensures State() == Pickers.MoveSelectionDown(old(State()))
    {
      if filtered != [] {
        var sel := if selected.Some? then selected.value else 0;
        var next := if sel + 1 < |filtered| then sel + 1 else 0;
        selected := Some(next);
      }
    }

    method SelectCurrent() returns (r: PickerResult)
      ensures r == Pickers.SelectCurrent(State())
    {
      r := PickerResult(None, None);
      if selected.Some? && selected.value < |filtered| {
        var itemIndex := filtered[selected.value];
        if itemIndex < |items| {
          r := PickerResult(items[itemIndex].path, items[itemIndex].bufferId);
        }
      }
    }

    /** `perform_grep_search`: reads at most the first `MaxGrepLines` lines
        of the tool's output and keeps one item per well-formed line. */
    method PerformGrepSearch(cls: Classifier, grepOutput: Option<seq<char>>)
      modifies this
      ensures var found := GrepSearch(cls, old(input), grepOutput);
              State() == old(State()).(items := found, filtered := Range(|found|))
    {
      var found := GrepSearchItems(cls, input, grepOutput);
      items := found;
      filtered := Range(|found|);
    }

    method UpdateFilter(cls: Classifier, lower: Line -> Line, grepOutput: Option<seq<char>>)
      modifies this
      ensures State() == Pickers.UpdateFilter(cls, lower, old(State()), grepOutput)
    {
      if input == [] {
        filtered := Range(|items|);
      } else {
        match kind {
          case Grep(_) => PerformGrepSearch(cls, grepOutput);
          case _ => filtered := Filter(lower, items, input);
        }
      }
      selected := if filtered == [] then None else Some(0);
    }

    method HandleKey(cls: Classifier, lower: Line -> Line, key: KeyEvent, grepOutput: Option<seq<char>>) returns (r: Option<PickerResult>)
      modifies this
      ensures (State(), r) == Pickers.HandleKey(cls, lower, old(State()), key, grepOutput)
    {
      r := None;
      match key.code {
        case Esc =>
        case Enter =>
          var result := SelectCurrent();
          r := Some(result);
        case Up => MoveSelectionUp();
        case Down => MoveSelectionDown();
        case Char(c) =>
          input := input + [c];
          UpdateFilter(cls, lower, grepOutput);
        case Backspace =>
          if input != [] {
            input := input[..|input| - 1];
          }
          UpdateFilter(cls, lower, grepOutput);
        case _ =>
      }
    }
  }
}
