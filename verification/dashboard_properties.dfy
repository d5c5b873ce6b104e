/** What the dashboard lookup of src/ui/dashboard.rs promises: which key
    gives which action, that only menu keys give one, and that every action
    it hands back is one of the menu's. */
module DashboardProperties {
  import opened Basics
  import opened Text
  import opened Keys
  import opened Dashboard

  /** The bindings: 'p' belongs to four entries and the first, "files",
      wins; 'f', 't', 'b', 'r' and 'q' pick their own entry; the Control
      key plays no part. */
  lemma MenuBindings(c: char, ctrl: bool)
    ensures c == 'p' || c == 'f' ==> HandleKey(KeyEvent(Char(c), ctrl)) == Some("files")
    ensures c == 't' ==> HandleKey(KeyEvent(Char(c), ctrl)) == Some("grep")
    ensures c == 'b' ==> HandleKey(KeyEvent(Char(c), ctrl)) == Some("buffers")
    ensures c == 'r' ==> HandleKey(KeyEvent(Char(c), ctrl)) == Some("resume")
    ensures c == 'q' ==> HandleKey(KeyEvent(Char(c), ctrl)) == Some("quit")
  {
    var m := MenuItems;
    assert m[0].keys == "pf" && m[1].keys == "pt" && m[2].keys == "pb" && m[3].keys == "pr" && m[4].keys == "q";
    if c == 'p' || c == 'f' {
      FirstEntryWins(m, c, 0);
    } else if c == 't' {
      FirstEntryWins(m, c, 1);
    } else if c == 'b' {
      FirstEntryWins(m, c, 2);
    } else if c == 'r' {
      FirstEntryWins(m, c, 3);
    } else if c == 'q' {
      FirstEntryWins(m, c, 4);
    }
  }

  /** The lookup returns the action of the first entry listing `c`. */
  lemma FirstEntryWins(items: seq<MenuItem>, c: char, i: nat)
    requires i < |items| && c in items[i].keys
    requires forall j | 0 <= j < i :: c !in items[j].keys
    ensures FirstAction(items, c) == Some(items[i].action)
  {
    var r := FirstAction(items, c);
    var k :| 0 <= k < |items| && c in items[k].keys && r.value == items[k].action &&
             forall j | 0 <= j < k :: c !in items[j].keys;
    assert k == i;
  }

  /** A key gives an action exactly when it is a character listed in the
      menu; every action handed back is one of the five menu actions, so
      "rename" never comes out of the dashboard. */
  lemma OnlyMenuKeysAct(key: KeyEvent)
    ensures HandleKey(key).Some? <==> key.code.Char? && key.code.c in "pftbrq"
    ensures HandleKey(key).Some? ==> HandleKey(key).value in {"files", "grep", "buffers", "resume", "quit"}
    ensures HandleKey(key) != Some("rename")
  {
    if key.code.Char? {
      var c := key.code.c;
      var r := FirstAction(MenuItems, c);
      if r.Some? {
        var i :| 0 <= i < |MenuItems| && c in MenuItems[i].keys && r.value == MenuItems[i].action;
        assert c in "pftbrq";
      } else {
        assert forall i | 0 <= i < |MenuItems| :: c !in MenuItems[i].keys;
        assert c !in MenuItems[0].keys + MenuItems[1].keys + MenuItems[2].keys + MenuItems[3].keys + MenuItems[4].keys;
      }
    }
  }
}
