/** Key events as the terminal library reports them; kind and state play no part
    in bindings (todoers/src/config.rs). */
module Keyboard {

  datatype Modifier = Control | Shift | Alt | Super | Hyper | Meta

  datatype KeyCode =
    | Backspace | Enter | Left | Right | Up | Down | Home | End | PageUp | PageDown
    | Tab | BackTab | Delete | Insert | F(n: nat) | Char(c: char) | Esc
    | Null | CapsLock | Menu | ScrollLock | Media(media: nat) | NumLock | PrintScreen | Pause | KeypadBegin
    | ModifierKey(which: nat)

  datatype KeyEvent = KeyEvent(code: KeyCode, modifiers: set<Modifier>)

  /** `normalize_key`: a character already carries its shifted form. */
  function Normalize(key: KeyEvent): KeyEvent {
    if key.code.Char? then key.(modifiers := key.modifiers - {Shift}) else key
  }
}
