/**
 * Keystrokes and the shortcuts bound to actions.
 *
 * A shortcut is a wrapped keystroke; two of them are equal only when every
 * modifier, the key token and the input-method key all agree.
 */
module Shortcuts {
  import opened Wrappers

  /** The modifier keys that were held with a key press. */
  datatype Modifiers = Modifiers(control: bool, alt: bool, shift: bool, command: bool)

  /** No modifier held (`Modifiers::default()`). */
  const NoModifiers := Modifiers(false, false, false, false)

  /** A key press: its modifiers, its key token and an optional input-method key. */
  datatype Keystroke = Keystroke(modifiers: Modifiers, key: string, imeKey: Option<string>)

  /** The shortcut bound to an action. */
  datatype Shortcut = Shortcut(inner: Keystroke)

  /** A shortcut for `key` pressed with no modifier. */
  function Simple(key: string): (s: Shortcut)
    ensures !s.inner.modifiers.control && !s.inner.modifiers.alt
    ensures !s.inner.modifiers.shift && !s.inner.modifiers.command
    ensures s.inner.key == key && s.inner.imeKey == None
  {
    Shortcut(Keystroke(NoModifiers, key, None))
  }

  /** A shortcut for `key` pressed with the command modifier and no other. */
  function Cmd(key: string): (s: Shortcut)
    ensures !s.inner.modifiers.control && !s.inner.modifiers.alt
    ensures !s.inner.modifiers.shift && s.inner.modifiers.command
    ensures s.inner.key == key && s.inner.imeKey == None
  {
    Shortcut(Keystroke(NoModifiers.(command := true), key, None))
  }

  /** A shortcut bound to exactly the given keystroke. */
  function New(keystroke: Keystroke): (s: Shortcut)
    ensures Matches(s, keystroke)
    ensures forall k :: Matches(s, k) ==> k == keystroke
  {
    Shortcut(keystroke)
  }

  /** Whether a pressed keystroke triggers the shortcut: structural equality. */
  predicate Matches(s: Shortcut, k: Keystroke) {
    s.inner == k
  }

  /**
   * Matching is exact: it holds exactly when each of the four modifiers, the
   * key token and the input-method key agree.
   */
  lemma MatchesIsExact(s: Shortcut, k: Keystroke)
    ensures Matches(s, k) <==>
      && s.inner.modifiers.control == k.modifiers.control
      && s.inner.modifiers.alt == k.modifiers.alt
      && s.inner.modifiers.shift == k.modifiers.shift
      && s.inner.modifiers.command == k.modifiers.command
      && s.inner.key == k.key
      && s.inner.imeKey == k.imeKey
  {
  }

  /** A keystroke that holds a modifier the shortcut lacks never matches it. */
  lemma ExtraModifierNeverMatches(s: Shortcut, k: Keystroke)
    requires (k.modifiers.control && !s.inner.modifiers.control)
          || (k.modifiers.alt && !s.inner.modifiers.alt)
          || (k.modifiers.shift && !s.inner.modifiers.shift)
          || (k.modifiers.command && !s.inner.modifiers.command)
    ensures !Matches(s, k)
  {
  }

  /** command+shift+k does not trigger a shortcut bound to command+k. */
  lemma CmdShiftKDoesNotMatchCmdK()
    ensures !Matches(Cmd("k"), Keystroke(Modifiers(false, false, true, true), "k", None))
  {
    ExtraModifierNeverMatches(Cmd("k"), Keystroke(Modifiers(false, false, true, true), "k", None));
  }

  /** A plain shortcut never equals a command shortcut, whatever their keys. */
  lemma SimpleIsNeverCmd(a: string, b: string)
    ensures Simple(a) != Cmd(b)
  {
  }

  /** Distinct keys give distinct shortcuts. */
  lemma SimpleInjective(a: string, b: string)
    ensures Simple(a) == Simple(b) <==> a == b
  {
  }
}
