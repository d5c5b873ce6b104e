/** Key events as the terminal library delivers them: a key code plus the
    state of the Control modifier (the only modifier the editor inspects). */
module Keys {

  datatype KeyCode =
    | Char(c: char)
    | Esc
    | Enter
    | Backspace
    | Delete
    | Tab
    | Left
    | Right
    | Up
    | Down
    /** Every other key the terminal can report (function keys, Home, PageUp, ...). */
    | Other

  datatype KeyEvent = KeyEvent(code: KeyCode, ctrl: bool)
}
