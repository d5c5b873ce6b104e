/** The start screen of src/ui/dashboard.rs: a key is looked up in a fixed
    menu, and the first entry whose key string holds the typed character
    names the action. The lookup reads no state and changes none. */
module Dashboard {
  import opened Basics
  import opened Text
  import opened Keys

  /** One row of `MENU_ITEMS`: the keys shown for it, its title and the
      action name handed back. */
  datatype MenuItem = MenuItem(keys: Line, title: Line, action: Line)

  const MenuItems: seq<MenuItem> := [
    MenuItem("pf", "Find Files", "files"),
    MenuItem("pt", "Grep Text", "grep"),
    MenuItem("pb", "Buffers", "buffers"),
    MenuItem("pr", "Resume Session", "resume"),
    MenuItem("q", "Quit", "quit")
  ]

  /** The action of the first entry of `items` whose keys hold `c`. */
  function FirstAction(items: seq<MenuItem>, c: char): (r: Option<Line>)
    ensures r.None? <==> forall i | 0 <= i < |items| :: c !in items[i].keys
    ensures r.Some? ==> exists i | 0 <= i < |items| ::
              c in items[i].keys && r.value == items[i].action &&
              forall j | 0 <= j < i :: c !in items[j].keys
  {
    if items == [] then None
    else if c in items[0].keys then
      assert c in items[0].keys && items[0].action == items[0].action;
      Some(items[0].action)
    else
      var r := FirstAction(items[1..], c);
      assert forall i | 1 <= i < |items| :: items[i] == items[1..][i - 1];
      if r.Some? then
        var i :| 0 <= i < |items[1..]| && c in items[1..][i].keys && r.value == items[1..][i].action &&
                 forall j | 0 <= j < i :: c !in items[1..][j].keys;
        assert forall j | 0 <= j < i + 1 :: c !in items[j].keys by {
          forall j | 0 <= j < i + 1 ensures c !in items[j].keys {
            if j > 0 {
              assert items[j] == items[1..][j - 1];
            }
          }
        }
        r
      else r
  }

  /** `handle_key`: a character picks the action of the first menu entry
      that lists it; every other key gives none. */
  function HandleKey(key: KeyEvent): Option<Line> {
    match key.code
    case Char(c) => FirstAction(MenuItems, c)
    case _ => None
  }
}
