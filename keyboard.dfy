/**
 * The keyboard input device (common/keyboard.go): a Keyboard holds the
 * modifier bitmask and the set of held key codes, and dispatches key events
 * through its session. Every method is proved to do exactly what the
 * corresponding function of KeyboardSpec says; the properties of those
 * functions are proved there.
 */
module Keyboard {
  import opened Wrappers
  import opened KeyboardLayout
  import opened KeyResolution
  import opened CdpSession
  import ComboKeys
  import Spec = KeyboardSpec

  /** Splits a key combination on '+', one character at a time. */
  method Split(keys: string) returns (kk: seq<string>)
    ensures kk == ComboKeys.Split(keys)
  {
    kk := [];
    var s := "";
    var i := 0;
    while i < |keys|
      invariant 0 <= i <= |keys|
      invariant kk + ComboKeys.SplitFrom(s, keys[i..]) == ComboKeys.Split(keys)
    {
      var r := keys[i];
      assert keys[i..][0] == r && keys[i..][1..] == keys[i + 1..];
      if r == '+' && |s| > 0 {
        assert ComboKeys.SplitFrom(s, keys[i..]) == [s] + ComboKeys.SplitFrom("", keys[i + 1..]);
        kk := kk + [s];
        s := "";
      } else {
        s := s + [r];
      }
      i := i + 1;
    }
    assert keys[i..] == [];
    kk := kk + [s];
  }

  class Keyboard {
    var modifiers: bv8
    var pressedKeys: set<int>
    const layoutName: string
    const layout: Layout
    const session: Session

    /** A keyboard with nothing held (the source's default layout is "us"). */
    constructor (session: Session, layoutName: string, layout: Layout)
      ensures modifiers == 0 && pressedKeys == {}
      ensures this.session == session && this.layoutName == layoutName && this.layout == layout
    {
      modifiers := 0;
      pressedKeys := {};
      this.session := session;
      this.layoutName := layoutName;
      this.layout := layout;
    }

    /** What the keyboard only reads: its layout and the session's oracle. */
    function Env(): Spec.Env
    {
      Spec.Env(layoutName, layout, session.accepts)
    }

    /** The keyboard's state together with the session's log. */
    function State(): Spec.Machine
      reads this, session
    {
      Spec.Machine(modifiers, pressedKeys, session.log)
    }

    method Down(key: string) returns (err: Option<Spec.KeyboardError>)
      modifies this, session
      ensures Spec.Outcome(State(), err) == Spec.Down(Env(), old(State()), key)
    {
      if key !in layout.validKeys {
        return Some(Spec.InvalidKey(key, layoutName));
      }
      ghost var m0 := State();
      var keyDef := KeyDefinitionFromKey(layout, modifiers, key);
      modifiers := modifiers | ModifierBitFromKeyName(keyDef.key);
      var autoRepeat := keyDef.keyCode in pressedKeys;
      pressedKeys := pressedKeys + {keyDef.keyCode};
      var ok := session.Execute(Spec.KeyDownCommand(modifiers, keyDef, autoRepeat));
      assert State() == Spec.Down(Env(), m0, key).machine;
      if !ok {
        return Some(Spec.DispatchFailed(Spec.KeyDownDispatch));
      }
      return None;
    }

    method Up(key: string) returns (err: Option<Spec.KeyboardError>)
      modifies this, session
      ensures Spec.Outcome(State(), err) == Spec.Up(Env(), old(State()), key)
    {
      if key !in layout.validKeys {
        return Some(Spec.InvalidKey(key, layoutName));
      }
      ghost var m0 := State();
      var keyDef := KeyDefinitionFromKey(layout, modifiers, key);
      modifiers := modifiers & !ModifierBitFromKeyName(keyDef.key);
      pressedKeys := pressedKeys - {keyDef.keyCode};
      var ok := session.Execute(Spec.KeyUpCommand(modifiers, keyDef));
      assert State() == Spec.Up(Env(), m0, key).machine;
      if !ok {
        return Some(Spec.DispatchFailed(Spec.KeyUpDispatch));
      }
      return None;
    }

    method InsertText(text: string) returns (err: Option<Spec.KeyboardError>)
      modifies session
      ensures Spec.Outcome(State(), err) == Spec.InsertText(Env(), old(State()), text)
    {
      var ok := session.Execute(CdpSession.InsertText(text));
      if !ok {
        return Some(Spec.DispatchFailed(Spec.InsertTextDispatch));
      }
      return None;
    }

    method Press(key: string) returns (err: Option<Spec.KeyboardError>)
      modifies this, session
      ensures Spec.Outcome(State(), err) == Spec.Press(Env(), old(State()), key)
    {
      var e := Down(key);
      if e.Some? {
        return Some(Spec.KeyDownFailed(e.value));
      }
      err := Up(key);
    }

    /** The down loop of a combination: each segment in order, stopping at the first failure. */
    method PressAll(kk: seq<string>) returns (err: Option<Spec.KeyboardError>)
      modifies this, session
      ensures Spec.Outcome(State(), err) == Spec.DownAll(Env(), old(State()), kk)
    {
      var i := 0;
      while i < |kk|
        invariant 0 <= i <= |kk|
        invariant Spec.DownAll(Env(), old(State()), kk) == Spec.DownAll(Env(), State(), kk[i..])
      {
        assert kk[i..][0] == kk[i] && kk[i..][1..] == kk[i + 1..];
        var e := Down(kk[i]);
        if e.Some? {
          return Some(Spec.KeyDownFailed(e.value));
        }
        i := i + 1;
      }
      assert kk[i..] == [];
      return None;
    }

    /** The up loop of a combination: each segment from the last to the first, stopping at the first failure. */
    method ReleaseAll(kk: seq<string>) returns (err: Option<Spec.KeyboardError>)
      modifies this, session
      ensures Spec.Outcome(State(), err) == Spec.UpAll(Env(), old(State()), ComboKeys.Reverse(kk))
    {
      ghost var released := ComboKeys.Reverse(kk);
      var i := 0;
      while i < |kk|
        invariant 0 <= i <= |kk|
        invariant Spec.UpAll(Env(), old(State()), released) == Spec.UpAll(Env(), State(), released[i..])
      {
        var key := kk[|kk| - i - 1];
        assert released[i..][0] == key && released[i..][1..] == released[i + 1..];
        var e := Up(key);
        if e.Some? {
          return Some(Spec.KeyUpFailed(e.value));
        }
        i := i + 1;
      }
      assert released[i..] == [];
      return None;
    }

    /** Presses the keys of a combination left to right, then releases them right to left. */
    method ComboPress(keys: string) returns (err: Option<Spec.KeyboardError>)
      modifies this, session
      ensures Spec.Outcome(State(), err) == Spec.ComboPress(Env(), old(State()), keys)
    {
      var kk := Split(keys);
      err := PressAll(kk);
      if err.Some? {
        return;
      }
      err := ReleaseAll(kk);
    }

    /**
     * Types text: each character that is a key of the layout is pressed,
     * every other character is inserted on its own.
     */
    method Type(text: string) returns (err: Option<Spec.KeyboardError>)
      modifies this, session
      ensures Spec.Outcome(State(), err) == Spec.TypeText(Env(), old(State()), text)
    {
      var i := 0;
      while i < |text|
        invariant 0 <= i <= |text|
        invariant Spec.TypeText(Env(), old(State()), text) == Spec.TypeText(Env(), State(), text[i..])
      {
        var c := text[i];
        assert text[i..][0] == c && text[i..][1..] == text[i + 1..];
        if [c] in layout.validKeys {
          var e := Press([c]);
          if e.Some? {
            return Some(Spec.PressFailed(e.value));
          }
        } else {
          var e := InsertText([c]);
          if e.Some? {
            return Some(Spec.InsertTextFailed(e.value));
          }
        }
        i := i + 1;
      }
      assert text[i..] == [];
      return None;
    }
  }
}
