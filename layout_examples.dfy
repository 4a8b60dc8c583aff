/**
 * Worked cases of key resolution and of a combination, on a small layout
 * whose entries have the shape of the "us" layout's: letter and digit keys
 * keyed by code, with unshifted and shifted values.
 */
module LayoutExamples {
  import opened Wrappers
  import opened KeyboardLayout
  import opened KeyResolution
  import opened CdpSession
  import opened ComboKeys
  import opened KeyboardSpec

  const Digit2 := KeyDefinition("2", "@", "Digit2", 50, 0, 0, "")
  const KeyA := KeyDefinition("a", "A", "KeyA", 65, 0, 0, "")
  const ShiftLeft := KeyDefinition("Shift", "", "ShiftLeft", 16, 0, 1, "")
  const ControlLeft := KeyDefinition("Control", "", "ControlLeft", 17, 0, 1, "")
  const Numpad1 := KeyDefinition("End", "1", "Numpad1", 35, 97, 3, "")

  function SampleByValue(t: string): Option<KeyDefinition>
  {
    if t == "2" then Some(Digit2)
    else if t == "a" then Some(KeyA)
    else if t == "Shift" then Some(ShiftLeft)
    else if t == "Control" then Some(ControlLeft)
    else if t == "End" then Some(Numpad1)
    else None
  }

  function SampleByShiftValue(t: string): KeyDefinition
  {
    if t == "@" then Digit2
    else if t == "A" then KeyA
    else if t == "1" then Numpad1
    else ZeroDefinition
  }

  const Sample := Layout(
    {"Digit2", "KeyA", "ShiftLeft", "ControlLeft", "Numpad1", "2", "@", "a", "A", "Shift", "Control"},
    map["Digit2" := Digit2, "KeyA" := KeyA, "ShiftLeft" := ShiftLeft,
        "ControlLeft" := ControlLeft, "Numpad1" := Numpad1],
    SampleByValue,
    SampleByShiftValue)

  /** With Shift held, the digit key still types the digit, not "@". */
  lemma ShiftDigitTypesDigit()
    ensures KeyDefinitionFromKey(Sample, ModifierKeyShift, "Digit2").key == "2"
    ensures KeyDefinitionFromKey(Sample, ModifierKeyShift, "Digit2").text == "2"
  {
    assert !IsKeyX("Digit2");
    assert UTF8Length("2") == 1;
  }

  /** With Shift held, a letter code types the capital letter. */
  lemma ShiftLetterTypesCapital()
    ensures KeyDefinitionFromKey(Sample, ModifierKeyShift, "KeyA").key == "A"
    ensures KeyDefinitionFromKey(Sample, ModifierKeyShift, "KeyA").text == "A"
  {
    assert IsKeyX("KeyA");
  }

  /** "@" is found on the shift layer: shift is forced, and the digit key's code number is used. */
  lemma AtSignFromShiftLayer()
    ensures var d := KeyDefinitionFromKey(Sample, 0, "@");
      d.key == "@" && d.text == "@" && d.keyCode == 50 && d.code == "@"
  {
    assert "@" !in Sample.keys;
  }

  /** Control held: no text is produced. */
  lemma ControlSuppressesText()
    ensures KeyDefinitionFromKey(Sample, ModifierKeyControl, "KeyA").text == ""
    ensures KeyDefinitionFromKey(Sample, ModifierKeyControl, "KeyA").key == "a"
  {
    assert IsKeyX("KeyA");
  }

  /**
   * The lower-case token "a" is found by value, is not a letter code, and so
   * types "a" even with Shift held.
   */
  lemma ShiftWithLowercaseToken()
    ensures KeyDefinitionFromKey(Sample, ModifierKeyShift, "a").key == "a"
    ensures KeyDefinitionFromKey(Sample, ModifierKeyShift, "a").text == "a"
  {
    assert !IsKeyX("a");
    assert "a" !in Sample.keys;
    assert UTF8Length("a") == 1;
  }

  /** The numeric-keypad key reports itself as on the keypad when pressed. */
  lemma KeypadLocation()
    ensures var o := Down(Env("us", Sample, _ => true), Machine(0, {}, []), "Numpad1");
      |o.machine.log| == 1 && o.machine.log[0].command.isKeypad
  {
  }

  const Everything := Env("us", Sample, _ => true)
  const Start := Machine(0, {}, [])
  const ShiftDown := Dispatch(RawKeyDown(8, "Shift", 16, "Shift", 1, false, "", "", false), true)
  const LetterDown := Dispatch(KeyDown(8, "a", 65, "a", 0, false, "a", "a", false), true)
  const LetterUp := Dispatch(KeyUp(8, "a", 65, "a", 0), true)
  const ShiftUp := Dispatch(KeyUp(0, "Shift", 16, "Shift", 1), true)

  /** The token "Shift" resolves by value to the left Shift key, keeping the token as its code. */
  lemma ResolveShift(mods: bv8)
    requires mods == 0 || mods == 8
    ensures KeyDefinitionFromKey(Sample, mods, "Shift") == KeyDefinition("Shift", "", "Shift", 16, 0, 1, "")
  {
    assert !IsKeyX("Shift");
    assert "Shift" !in Sample.keys;
    assert UTF8Length("Shift") != 1 by { UTF8LengthOne("Shift"); }
  }

  /** Under Shift, the token "a" resolves to the unshifted "a" with text "a". */
  lemma ResolveLowercaseA()
    ensures KeyDefinitionFromKey(Sample, 8, "a") == KeyDefinition("a", "", "a", 65, 0, 0, "a")
  {
    assert !IsKeyX("a");
    assert "a" !in Sample.keys;
    assert UTF8Length("a") == 1;
  }

  lemma PressShift()
    ensures Down(Everything, Start, "Shift") == Outcome(Machine(8, {16}, [ShiftDown]), None)
  {
    ResolveShift(0);
  }

  lemma PressLetter()
    ensures Down(Everything, Machine(8, {16}, [ShiftDown]), "a")
         == Outcome(Machine(8, {16, 65}, [ShiftDown, LetterDown]), None)
  {
    ResolveLowercaseA();
  }

  lemma ReleaseLetter()
    ensures Up(Everything, Machine(8, {16, 65}, [ShiftDown, LetterDown]), "a")
         == Outcome(Machine(8, {16}, [ShiftDown, LetterDown, LetterUp]), None)
  {
    ResolveLowercaseA();
  }

  lemma ReleaseShift()
    ensures Up(Everything, Machine(8, {16}, [ShiftDown, LetterDown, LetterUp]), "Shift")
         == Outcome(Machine(0, {}, [ShiftDown, LetterDown, LetterUp, ShiftUp]), None)
  {
    ResolveShift(8);
  }

  lemma PressBoth()
    ensures DownAll(Everything, Start, ["Shift", "a"])
         == Outcome(Machine(8, {16, 65}, [ShiftDown, LetterDown]), None)
  {
    PressShift();
    PressLetter();
    assert ["Shift", "a"][1..] == ["a"];
  }

  lemma ReleaseBoth()
    ensures UpAll(Everything, Machine(8, {16, 65}, [ShiftDown, LetterDown]), ["a", "Shift"])
         == Outcome(Machine(0, {}, [ShiftDown, LetterDown, LetterUp, ShiftUp]), None)
  {
    ReleaseLetter();
    ReleaseShift();
    assert ["a", "Shift"][1..] == ["Shift"];
  }

  /**
   * "Shift+a" on this layout dispatches down Shift, down a, up a, up Shift;
   * the "a" carries the text "a", and the final release clears the mask.
   */
  lemma ShiftPlusLowercaseA()
    ensures ComboPress(Everything, Start, "Shift+a")
         == Outcome(Machine(0, {}, [ShiftDown, LetterDown, LetterUp, ShiftUp]), None)
  {
    assert Join(["Shift", "a"]) == "Shift+a";
    SplitUnique("Shift+a", ["Shift", "a"]);
    assert Reverse(["Shift", "a"]) == ["a", "Shift"];
    PressBoth();
    ReleaseBoth();
  }
}
