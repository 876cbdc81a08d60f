/** Keyboard and character input turned into edit commands for the editing
    core (src/main.rs:172-205). Only the command chosen is modelled, not the
    text of the outbound message. */
module Input {
  import opened Wrappers

  /** The keys the front end reacts to; every other key is `OtherKey`. */
  datatype Key = Return | Back | Delete | Left | Right | Up | Down | OtherKey(code: nat)

  datatype EditCommand =
    | InsertNewline
    | DeleteBackward
    | DeleteForward
    | MoveLeft
    | MoveRight
    | MoveUp
    | MoveDown
    | Insert(ch: char)

  /** The command a pressed key sends (src/main.rs:175-184). */
  function KeyCommand(k: Key): Option<EditCommand> {
    match k
    case Return => Some(InsertNewline)
    case Back => Some(DeleteBackward)
    case Delete => Some(DeleteForward)
    case Left => Some(MoveLeft)
    case Right => Some(MoveRight)
    case Up => Some(MoveUp)
    case Down => Some(MoveDown)
    case OtherKey(_) => None
  }

  /** The `method` field of the edit request for a command. */
  function MethodName(c: EditCommand): string {
    match c
    case InsertNewline => "insert_newline"
    case DeleteBackward => "delete_backward"
    case DeleteForward => "delete_forward"
    case MoveLeft => "move_left"
    case MoveRight => "move_right"
    case MoveUp => "move_up"
    case MoveDown => "move_down"
    case Insert(_) => "insert"
  }

  /** The key that sends a non-insert command: the inverse of `KeyCommand`. */
  function CommandKey(c: EditCommand): Option<Key> {
    match c
    case InsertNewline => Some(Return)
    case DeleteBackward => Some(Back)
    case DeleteForward => Some(Delete)
    case MoveLeft => Some(Left)
    case MoveRight => Some(Right)
    case MoveUp => Some(Up)
    case MoveDown => Some(Down)
    case Insert(_) => None
  }

  /** Unicode general category Cc: U+0000-U+001F and U+007F-U+009F. */
  predicate IsControl(c: char) {
    c <= '\U{1F}' || ('\U{7F}' <= c && c <= '\U{9F}')
  }

  /** The Basic Multilingual Plane's Private Use Area, U+E000-U+F8FF. */
  predicate IsPrivateUse(c: char) {
    '\U{E000}' <= c && c <= '\U{F8FF}'
  }

  /** A received character is sent for insertion unless it is a control
      character or a private-use code point (src/main.rs:200-204). */
  function CharCommand(c: char): Option<EditCommand> {
    if !IsControl(c) && !IsPrivateUse(c) then Some(Insert(c)) else None
  }

  // ---------------------------------------------------------------------------
  // Lemmas

  /** Key and command determine each other: a mapped key's command leads
      back to the key, and every non-insert command comes from exactly the
      key `CommandKey` names. No key sends an insertion. */
  lemma KeyCommandRoundTrip(k: Key, c: EditCommand)
    ensures KeyCommand(k).Some? ==> CommandKey(KeyCommand(k).value) == Some(k)
    ensures KeyCommand(k) == Some(c) <==> CommandKey(c) == Some(k)
    ensures KeyCommand(k).Some? <==> !k.OtherKey?
    ensures KeyCommand(k).Some? ==> !KeyCommand(k).value.Insert?
  {
  }

  /** Distinct kinds of command are sent under distinct method names. */
  lemma MethodNamesDistinct(a: EditCommand, b: EditCommand)
    ensures MethodName(a) == MethodName(b) <==> a == b || (a.Insert? && b.Insert?)
  {
  }

  /** The filter accepts exactly the code points outside
      U+0000-U+001F, U+007F-U+009F and U+E000-U+F8FF, and sends the very
      character it received. */
  lemma CharFilterRanges(c: char)
    ensures CharCommand(c).Some? <==>
      (0x20 <= c as int <= 0x7E) || (0xA0 <= c as int < 0xE000) || (0xF8FF < c as int)
    ensures CharCommand(c).Some? ==> CharCommand(c) == Some(Insert(c))
  {
  }
}
