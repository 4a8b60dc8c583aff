/**
 * Resolution of a requested key token into the key definition the keyboard
 * emits (common/keyboard.go, keyDefinitionFromKey, isKeyX and
 * modifierBitFromKeyName).
 */
module KeyResolution {
  import opened Wrappers
  import opened KeyboardLayout

  /** The modifier bitmask, as the protocol numbers it. */
  const ModifierKeyAlt: bv8 := 1
  const ModifierKeyControl: bv8 := 2
  const ModifierKeyMeta: bv8 := 4
  const ModifierKeyShift: bv8 := 8

  /** The bit a key name sets while it is held; 0 for a non-modifier key. */
  function ModifierBitFromKeyName(name: string): bv8
  {
    match name
    case "Alt" => ModifierKeyAlt
    case "Control" => ModifierKeyControl
    case "Meta" => ModifierKeyMeta
    case "Shift" => ModifierKeyShift
    case _ => 0
  }

  /** Alt, Control, Meta and Shift are bits 1, 2, 4 and 8; every other name sets none. */
  lemma ModifierBitTable(name: string)
    ensures ModifierBitFromKeyName(name) == ModifierKeyAlt <==> name == "Alt"
    ensures ModifierBitFromKeyName(name) == ModifierKeyControl <==> name == "Control"
    ensures ModifierBitFromKeyName(name) == ModifierKeyMeta <==> name == "Meta"
    ensures ModifierBitFromKeyName(name) == ModifierKeyShift <==> name == "Shift"
    ensures ModifierBitFromKeyName(name) == 0 <==> name !in {"Alt", "Control", "Meta", "Shift"}
  {
  }

  /** Every key name maps to at most one of the four low bits. */
  lemma ModifierBitIsSingle(name: string)
    ensures var bit := ModifierBitFromKeyName(name); bit & (bit - 1) == 0 && bit & !15 == 0
  {
  }

  /** The 26 codes of the letter keys. */
  const LetterKeyCodes: set<string> := {
    "KeyA", "KeyB", "KeyC", "KeyD", "KeyE", "KeyF", "KeyG", "KeyH", "KeyI",
    "KeyJ", "KeyK", "KeyL", "KeyM", "KeyN", "KeyO", "KeyP", "KeyQ", "KeyR",
    "KeyS", "KeyT", "KeyU", "KeyV", "KeyW", "KeyX", "KeyY", "KeyZ"}

  /** Whether a token is the code of a letter key: "Key" followed by one of A..Z. */
  function IsKeyX(key: string): (r: bool)
    ensures r <==> |key| == 4 && key[..3] == "Key" && 'A' <= key[3] <= 'Z'
  {
    LetterKeyCodesShape(key);
    key in LetterKeyCodes
  }

  /** The table of letter codes is exactly the strings "Key" + one of A..Z. */
  lemma LetterKeyCodesShape(key: string)
    ensures key in LetterKeyCodes <==> |key| == 4 && key[..3] == "Key" && 'A' <= key[3] <= 'Z'
  {
    if |key| == 4 && key[..3] == "Key" && 'A' <= key[3] <= 'Z' {
      var c := key[3];
      assert key == ['K', 'e', 'y', c];
      if c == 'A' {
        assert key == "KeyA";
      } else if c == 'B' {
        assert key == "KeyB";
      } else if c == 'C' {
        assert key == "KeyC";
      } else if c == 'D' {
        assert key == "KeyD";
      } else if c == 'E' {
        assert key == "KeyE";
      } else if c == 'F' {
        assert key == "KeyF";
      } else if c == 'G' {
        assert key == "KeyG";
      } else if c == 'H' {
        assert key == "KeyH";
      } else if c == 'I' {
        assert key == "KeyI";
      } else if c == 'J' {
        assert key == "KeyJ";
      } else if c == 'K' {
        assert key == "KeyK";
      } else if c == 'L' {
        assert key == "KeyL";
      } else if c == 'M' {
        assert key == "KeyM";
      } else if c == 'N' {
        assert key == "KeyN";
      } else if c == 'O' {
        assert key == "KeyO";
      } else if c == 'P' {
        assert key == "KeyP";
      } else if c == 'Q' {
        assert key == "KeyQ";
      } else if c == 'R' {
        assert key == "KeyR";
      } else if c == 'S' {
        assert key == "KeyS";
      } else if c == 'T' {
        assert key == "KeyT";
      } else if c == 'U' {
        assert key == "KeyU";
      } else if c == 'V' {
        assert key == "KeyV";
      } else if c == 'W' {
        assert key == "KeyW";
      } else if c == 'X' {
        assert key == "KeyX";
      } else if c == 'Y' {
        assert key == "KeyY";
      } else if c == 'Z' {
        assert key == "KeyZ";
      }
    }
  }

  /** Number of bytes of the UTF-8 encoding of a string (Go's len). */
  function UTF8Length(s: string): (n: nat)
    ensures |s| <= n <= 4 * |s|
  {
    if s == [] then 0
    else
      var c := s[0] as int;
      (if c < 0x80 then 1 else if c < 0x800 then 2 else if c < 0x10000 then 3 else 4)
      + UTF8Length(s[1..])
  }

  /** A string is one byte long exactly when it is a single ASCII character. */
  lemma UTF8LengthOne(s: string)
    ensures UTF8Length(s) == 1 <==> |s| == 1 && s[0] as int < 0x80
  {
    if |s| > 0 {
      assert UTF8Length(s[1..]) >= |s| - 1;
    }
  }

  /** Where a token was found: the entry, and whether it came from the shift layer. */
  datatype Source = Source(def: KeyDefinition, foundInShift: bool)

  /**
   * The lookup chain: the layout's table first, then the entry whose
   * unmodified value is the token, then the entry whose shift value is it.
   */
  function FindSource(layout: Layout, key: string): (s: Source)
    ensures s.foundInShift <==> key !in layout.keys && layout.byValue(key).None?
    ensures key in layout.keys ==> s.def == layout.keys[key]
    ensures key !in layout.keys && layout.byValue(key).Some? ==> s.def == layout.byValue(key).value
    ensures s.foundInShift ==> s.def == layout.byShiftValue(key)
  {
    if key in layout.keys then Source(layout.keys[key], false)
    else match layout.byValue(key)
      case Some(d) => Source(d, false)
      case None => Source(layout.byShiftValue(key), true)
  }

  /** Shift counts as pressed when it is held, or forced by a shift-layer match. */
  predicate ShiftActive(modifiers: bv8, foundInShift: bool)
  {
    foundInShift || modifiers & ModifierKeyShift != 0
  }

  /** Some modifier other than Shift is held. */
  predicate NonShiftModifierHeld(modifiers: bv8)
  {
    modifiers & !ModifierKeyShift != 0
  }

  /**
   * The shift layer replaces the unshifted key and text only for letter codes
   * or shift-layer matches, with shift active and a shift value present.
   */
  predicate UsesShiftLayer(key: string, modifiers: bv8, src: Source)
  {
    && (IsKeyX(key) || src.foundInShift)
    && ShiftActive(modifiers, src.foundInShift)
    && src.def.shiftKey != ""
  }

  /** The text of an entry without shift: its explicit text, else its key if one byte long. */
  function UnshiftedText(def: KeyDefinition): string
  {
    if def.text != "" then def.text
    else if UTF8Length(def.key) == 1 then def.key
    else ""
  }

  /** The shift bits consulted while resolving: the held Shift bit, forced on for a shift-layer hit. */
  function ShiftMask(modifiers: bv8, foundInShift: bool): (shift: bv8)
    ensures (shift != 0) == ShiftActive(modifiers, foundInShift)
  {
    if foundInShift then modifiers | ModifierKeyShift else modifiers & ModifierKeyShift
  }

  /**
   * The definition the keyboard emits for `key` under `modifiers`, built field
   * by field from the entry the lookup chain finds.
   */
  function KeyDefinitionFromKey(layout: Layout, modifiers: bv8, key: string): (r: KeyDefinition)
    ensures r.code == key
    ensures r.location == FindSource(layout, key).def.location
    ensures r.keyCode == (var src := FindSource(layout, key);
                          if src.def.keyCode != 0 then src.def.keyCode
                          else if ShiftActive(modifiers, src.foundInShift) then src.def.shiftKeyCode
                          else 0)
    ensures r.key == (var src := FindSource(layout, key);
                      if UsesShiftLayer(key, modifiers, src) then src.def.shiftKey else src.def.key)
    ensures r.text == (var src := FindSource(layout, key);
                       if NonShiftModifierHeld(modifiers) then ""
                       else if UsesShiftLayer(key, modifiers, src) then src.def.shiftKey
                       else UnshiftedText(src.def))
    ensures r.shiftKey == "" && r.shiftKeyCode == 0
  {
    var src := FindSource(layout, key);
    var shift := ShiftMask(modifiers, src.foundInShift);
    // each field of the zero definition, overwritten in the order of the source
    var key0 := if src.def.key != "" then src.def.key else "";
    var text0 := if UTF8Length(src.def.key) == 1 then src.def.key else "";
    var keyCode0 := if shift != 0 && src.def.shiftKeyCode != 0 then src.def.shiftKeyCode else 0;
    var keyCode := if src.def.keyCode != 0 then src.def.keyCode else keyCode0;
    var code := if key != "" then key else "";
    var location := if src.def.location != 0 then src.def.location else 0;
    var text1 := if src.def.text != "" then src.def.text else text0;
    var useShift := (IsKeyX(key) || src.foundInShift) && shift != 0 && src.def.shiftKey != "";
    var key1 := if useShift then src.def.shiftKey else key0;
    var text2 := if useShift then src.def.shiftKey else text1;
    var text := if modifiers & !ModifierKeyShift != 0 then "" else text2;
    KeyDefinition(key1, "", code, keyCode, 0, location, text)
  }

  /** Holding Alt, Control or Meta always suppresses the text, whatever the key. */
  lemma NonShiftModifierSuppressesText(layout: Layout, modifiers: bv8, key: string)
    requires modifiers & (ModifierKeyAlt | ModifierKeyControl | ModifierKeyMeta) != 0
    ensures KeyDefinitionFromKey(layout, modifiers, key).text == ""
  {
  }

  /**
   * A token that is not a letter code and is found without the shift layer
   * keeps its unshifted key, even with Shift held (pressing "2" types "2").
   */
  lemma NoShiftSubstitutionOutsideLetters(layout: Layout, modifiers: bv8, key: string)
    requires !IsKeyX(key)
    requires key in layout.keys || layout.byValue(key).Some?
    ensures KeyDefinitionFromKey(layout, modifiers, key).key == FindSource(layout, key).def.key
    ensures !NonShiftModifierHeld(modifiers) ==>
      KeyDefinitionFromKey(layout, modifiers, key).text == UnshiftedText(FindSource(layout, key).def)
  {
  }

  /**
   * A letter code with the Shift bit held and a shift value present takes the
   * shift value as its key, and as its text unless Alt, Control or Meta is held.
   */
  lemma ShiftedLetter(layout: Layout, modifiers: bv8, key: string)
    requires IsKeyX(key) && modifiers & ModifierKeyShift != 0
    requires FindSource(layout, key).def.shiftKey != ""
    ensures KeyDefinitionFromKey(layout, modifiers, key).key == FindSource(layout, key).def.shiftKey
    ensures !NonShiftModifierHeld(modifiers) ==>
      KeyDefinitionFromKey(layout, modifiers, key).text == FindSource(layout, key).def.shiftKey
  {
  }
}
