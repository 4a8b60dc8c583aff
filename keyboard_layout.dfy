/**
 * The keyboard layout the keyboard resolves tokens against. The layout
 * package itself is not part of this model: a layout is a parameter made of
 * its table of valid key tokens, its table of key definitions keyed by key
 * input, and its two search functions (by unmodified value and by shift
 * value), which are taken as given.
 */
module KeyboardLayout {
  import opened Wrappers

  /** One physical or logical key: its unmodified and shift identities. */
  datatype KeyDefinition = KeyDefinition(
    key: string,
    shiftKey: string,
    code: string,
    keyCode: int,
    shiftKeyCode: int,
    location: int,
    text: string)

  /** The zero value of a key definition (all fields empty or zero). */
  const ZeroDefinition := KeyDefinition("", "", "", 0, 0, 0, "")

  /**
   * A layout. `byValue` answers "is there an entry whose unmodified key is
   * this token?" with the entry or None; `byShiftValue` answers "the entry
   * whose shift key is this token", giving the zero definition when none is.
   */
  datatype Layout = Layout(
    validKeys: set<string>,
    keys: map<string, KeyDefinition>,
    byValue: string -> Option<KeyDefinition>,
    byShiftValue: string -> KeyDefinition)
}
