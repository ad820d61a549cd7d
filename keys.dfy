/**
 * The keyboard shortcuts both `keydown` handlers recognise.  `key` is the
 * string the browser reports (`"z"`, `"Z"`, `"Delete"`, ...); the tests are
 * exact, so an upper-case `"Z"` is not the undo key.
 */
module Keys {

  datatype KeyEvent = KeyEvent(key: string, ctrlKey: bool, shiftKey: bool)

  /** Ctrl+Z without Shift. */
  predicate IsUndoKey(e: KeyEvent)
  {
    e.ctrlKey && e.key == "z" && !e.shiftKey
  }

  /** Ctrl+Y, or Ctrl+Shift+Z. */
  predicate IsRedoKey(e: KeyEvent)
  {
    (e.ctrlKey && e.key == "y") || (e.ctrlKey && e.shiftKey && e.key == "z")
  }

  /** Delete or Backspace, with or without modifiers. */
  predicate IsDeleteKey(e: KeyEvent)
  {
    e.key == "Delete" || e.key == "Backspace"
  }

  /** Which shortcut an event is, with the handlers' precedence: undo, then redo, then delete. */
  datatype Shortcut = UndoShortcut | RedoShortcut | DeleteShortcut | NoShortcut

  function Classify(e: KeyEvent): (s: Shortcut)
    ensures s == UndoShortcut <==> IsUndoKey(e)
    ensures s == RedoShortcut <==> IsRedoKey(e)
    ensures s == DeleteShortcut <==> IsDeleteKey(e)
    ensures s == NoShortcut <==> !IsUndoKey(e) && !IsRedoKey(e) && !IsDeleteKey(e)
  {
    if IsUndoKey(e) then UndoShortcut
    else if IsRedoKey(e) then RedoShortcut
    else if IsDeleteKey(e) then DeleteShortcut
    else NoShortcut
  }
}
