/**
 * What the keyboard does, as functions of its state (common/keyboard.go,
 * down, up, insertText, press, comboPress, typ). A Machine is the keyboard's
 * modifier bitmask and held key codes together with the session's log; the
 * Env is everything the keyboard only reads: the layout, its name, and the
 * session's accept oracle. The Keyboard class is proved to follow these.
 */
module KeyboardSpec {
  import opened Wrappers
  import opened KeyboardLayout
  import opened KeyResolution
  import opened CdpSession
  import opened ComboKeys

  /** Which dispatch the session rejected. */
  datatype DispatchFailure = KeyDownDispatch | KeyUpDispatch | InsertTextDispatch

  /** The keyboard's errors, with the wrapping the source adds at each level. */
  datatype KeyboardError =
    | InvalidKey(key: string, layoutName: string)
    | DispatchFailed(failure: DispatchFailure)
    | KeyDownFailed(cause: KeyboardError)
    | KeyUpFailed(cause: KeyboardError)
    | PressFailed(cause: KeyboardError)
    | InsertTextFailed(cause: KeyboardError)

  datatype Env = Env(layoutName: string, layout: Layout, accepts: nat -> bool)

  datatype Machine = Machine(modifiers: bv8, pressedKeys: set<int>, log: seq<Dispatch>)

  datatype Outcome = Outcome(machine: Machine, err: Option<KeyboardError>)

  /** Is `c` a key-down command (cooked or raw) for the definition `def` under `modifiers`? */
  predicate DescribesDown(c: Command, def: KeyDefinition, modifiers: bv8)
  {
    && (c.KeyDown? || c.RawKeyDown?)
    && c.modifiers == modifiers
    && c.key == def.key && c.windowsVirtualKeyCode == def.keyCode && c.code == def.code
    && c.location == def.location && c.text == def.text
  }

  /** The key-down command for a resolved definition: raw when there is no text. */
  function KeyDownCommand(modifiers: bv8, def: KeyDefinition, autoRepeat: bool): (c: Command)
    ensures c.KeyDown? || c.RawKeyDown?
    ensures c.RawKeyDown? <==> def.text == ""
    ensures c.isKeypad <==> def.location == 3
    ensures c.text == def.text && c.unmodifiedText == def.text
    ensures DescribesDown(c, def, modifiers) && c.autoRepeat == autoRepeat
  {
    if def.text == "" then
      RawKeyDown(modifiers, def.key, def.keyCode, def.code, def.location, def.location == 3,
                 def.text, def.text, autoRepeat)
    else
      KeyDown(modifiers, def.key, def.keyCode, def.code, def.location, def.location == 3,
              def.text, def.text, autoRepeat)
  }

  /** The key-up command: no text, no keypad flag, no auto-repeat. */
  function KeyUpCommand(modifiers: bv8, def: KeyDefinition): (c: Command)
    ensures c.KeyUp? && c.modifiers == modifiers
    ensures c.key == def.key && c.windowsVirtualKeyCode == def.keyCode && c.code == def.code
    ensures c.location == def.location
  {
    KeyUp(modifiers, def.key, def.keyCode, def.code, def.location)
  }

  /** The last dispatch in an outcome's log. */
  function Last(o: Outcome): Dispatch
    requires |o.machine.log| > 0
  {
    o.machine.log[|o.machine.log| - 1]
  }

  /**
   * The keyboard's state after it set `modifiers` and `pressed` and then
   * sent `c`: the state change does not depend on whether the session
   * accepted the command, only the error does.
   */
  function Dispatched(env: Env, m: Machine, modifiers: bv8, pressed: set<int>, c: Command,
                      failure: DispatchFailure): (o: Outcome)
    ensures o.machine.modifiers == modifiers && o.machine.pressedKeys == pressed
    ensures |o.machine.log| == |m.log| + 1 && o.machine.log[..|m.log|] == m.log
    ensures Last(o) == Dispatch(c, env.accepts(|m.log|))
    ensures o.err == (if env.accepts(|m.log|) then None else Some(DispatchFailed(failure)))
  {
    Outcome(Machine(modifiers, pressed, Send(env.accepts, m.log, c)),
            if env.accepts(|m.log|) then None else Some(DispatchFailed(failure)))
  }

  /**
   * Presses `key`: resolves it under the current modifiers, sets its
   * modifier bit, marks its key code held, then dispatches.
   */
  function Down(env: Env, m: Machine, key: string): (o: Outcome)
    // an invalid key is refused before anything changes or is dispatched
    ensures key !in env.layout.validKeys ==> o == Outcome(m, Some(InvalidKey(key, env.layoutName)))
    // a valid key dispatches exactly one command, appended to the log
    ensures key in env.layout.validKeys ==>
      |o.machine.log| == |m.log| + 1 && o.machine.log[..|m.log|] == m.log
    ensures key in env.layout.validKeys ==>
      DescribesDown(Last(o).command, KeyDefinitionFromKey(env.layout, m.modifiers, key), o.machine.modifiers)
    ensures key in env.layout.validKeys ==>
      var c := Last(o).command;
      && c.code == key
      && (c.RawKeyDown? <==> c.text == "")
      && c.unmodifiedText == c.text
      && (c.isKeypad <==> c.location == 3)
    // the modifier bit of the resolved key is set (the command carries the new mask)
    ensures key in env.layout.validKeys ==>
      o.machine.modifiers == m.modifiers | ModifierBitFromKeyName(KeyDefinitionFromKey(env.layout, m.modifiers, key).key)
    // auto-repeat iff the key code was already held; it is held afterwards
    ensures key in env.layout.validKeys ==>
      var code := KeyDefinitionFromKey(env.layout, m.modifiers, key).keyCode;
      && (Last(o).command.autoRepeat <==> code in m.pressedKeys)
      && o.machine.pressedKeys == m.pressedKeys + {code}
    // the state changes whether or not the session accepts the command
    ensures key in env.layout.validKeys ==>
      && Last(o).ok == env.accepts(|m.log|)
      && o.err == (if Last(o).ok then None else Some(DispatchFailed(KeyDownDispatch)))
  {
    if key !in env.layout.validKeys then Outcome(m, Some(InvalidKey(key, env.layoutName)))
    else
      var def := KeyDefinitionFromKey(env.layout, m.modifiers, key);
      var modifiers := m.modifiers | ModifierBitFromKeyName(def.key);
      var autoRepeat := def.keyCode in m.pressedKeys;
      var pressed := m.pressedKeys + {def.keyCode};
      Dispatched(env, m, modifiers, pressed, KeyDownCommand(modifiers, def, autoRepeat), KeyDownDispatch)
  }

  /**
   * Releases `key`: resolves it under the modifiers held BEFORE the release,
   * clears its modifier bit, forgets its key code, then dispatches.
   */
  function Up(env: Env, m: Machine, key: string): (o: Outcome)
    ensures key !in env.layout.validKeys ==> o == Outcome(m, Some(InvalidKey(key, env.layoutName)))
    ensures key in env.layout.validKeys ==>
      |o.machine.log| == |m.log| + 1 && o.machine.log[..|m.log|] == m.log
    ensures key in env.layout.validKeys ==>
      var def := KeyDefinitionFromKey(env.layout, m.modifiers, key);
      var c := Last(o).command;
      && c.KeyUp?
      && c.key == def.key && c.windowsVirtualKeyCode == def.keyCode && c.code == key
      && c.location == def.location
    // the bit is cleared and the command carries the mask after clearing
    ensures key in env.layout.validKeys ==>
      o.machine.modifiers == m.modifiers & !ModifierBitFromKeyName(KeyDefinitionFromKey(env.layout, m.modifiers, key).key)
    ensures key in env.layout.validKeys ==> Last(o).command.modifiers == o.machine.modifiers
    ensures key in env.layout.validKeys ==>
      o.machine.pressedKeys == m.pressedKeys - {KeyDefinitionFromKey(env.layout, m.modifiers, key).keyCode}
    ensures key in env.layout.validKeys ==>
      && Last(o).ok == env.accepts(|m.log|)
      && o.err == (if Last(o).ok then None else Some(DispatchFailed(KeyUpDispatch)))
  {
    if key !in env.layout.validKeys then Outcome(m, Some(InvalidKey(key, env.layoutName)))
    else
      var def := KeyDefinitionFromKey(env.layout, m.modifiers, key);
      var modifiers := m.modifiers & !ModifierBitFromKeyName(def.key);
      var pressed := m.pressedKeys - {def.keyCode};
      Dispatched(env, m, modifiers, pressed, KeyUpCommand(modifiers, def), KeyUpDispatch)
  }

  /** Inserts text directly, without key events; the keyboard state is untouched. */
  function InsertText(env: Env, m: Machine, text: string): (o: Outcome)
    ensures o.machine.modifiers == m.modifiers && o.machine.pressedKeys == m.pressedKeys
    ensures o.machine.log == Send(env.accepts, m.log, CdpSession.InsertText(text))
    ensures o.err.None? <==> env.accepts(|m.log|)
  {
    Outcome(m.(log := Send(env.accepts, m.log, CdpSession.InsertText(text))),
            if env.accepts(|m.log|) then None else Some(DispatchFailed(InsertTextDispatch)))
  }

  /** Down immediately followed by up (the delay before it is not modelled). */
  function Press(env: Env, m: Machine, key: string): (o: Outcome)
    ensures m.log <= o.machine.log && |o.machine.log| <= |m.log| + 2
    // once the down went through the key is valid, so the up can only be rejected
    ensures o.err.Some? ==> o.err.value.KeyDownFailed? || o.err == Some(DispatchFailed(KeyUpDispatch))
    ensures o.err.None? ==> |o.machine.log| == |m.log| + 2
  {
    var d := Down(env, m, key);
    if d.err.Some? then Outcome(d.machine, Some(KeyDownFailed(d.err.value)))
    else Up(env, d.machine, key)
  }

  /** Down for each key in order, stopping at the first failure. */
  function DownAll(env: Env, m: Machine, keys: seq<string>): (o: Outcome)
    ensures m.log <= o.machine.log && |o.machine.log| <= |m.log| + |keys|
    ensures o.err.Some? ==> o.err.value.KeyDownFailed?
    ensures o.err.None? ==> |o.machine.log| == |m.log| + |keys|
    decreases |keys|
  {
    if keys == [] then Outcome(m, None)
    else
      var d := Down(env, m, keys[0]);
      if d.err.Some? then Outcome(d.machine, Some(KeyDownFailed(d.err.value)))
      else DownAll(env, d.machine, keys[1..])
  }

  /** Up for each key in the given order, stopping at the first failure. */
  function UpAll(env: Env, m: Machine, keys: seq<string>): (o: Outcome)
    ensures m.log <= o.machine.log && |o.machine.log| <= |m.log| + |keys|
    ensures o.err.Some? ==> o.err.value.KeyUpFailed?
    ensures o.err.None? ==> |o.machine.log| == |m.log| + |keys|
    decreases |keys|
  {
    if keys == [] then Outcome(m, None)
    else
      var u := Up(env, m, keys[0]);
      if u.err.Some? then Outcome(u.machine, Some(KeyUpFailed(u.err.value)))
      else UpAll(env, u.machine, keys[1..])
  }

  /** Presses the keys of a combination left to right and releases them right to left. */
  function ComboPress(env: Env, m: Machine, keys: string): (o: Outcome)
    ensures m.log <= o.machine.log && |o.machine.log| <= |m.log| + 2 * |Split(keys)|
    ensures o.err.Some? ==> o.err.value.KeyDownFailed? || o.err.value.KeyUpFailed?
    ensures o.err.None? ==> |o.machine.log| == |m.log| + 2 * |Split(keys)|
  {
    var kk := Split(keys);
    var d := DownAll(env, m, kk);
    if d.err.Some? then d else UpAll(env, d.machine, Reverse(kk))
  }

  /** One character of typed text: a press when it is a layout key, else an insertion. */
  function TypeChar(env: Env, m: Machine, c: char): (o: Outcome)
    ensures m.log <= o.machine.log && |o.machine.log| <= |m.log| + 2
    ensures o.err.Some? ==> o.err.value.PressFailed? || o.err.value.InsertTextFailed?
    ensures o.err.Some? && o.err.value.InsertTextFailed? ==> [c] !in env.layout.validKeys
  {
    if [c] in env.layout.validKeys then
      var p := Press(env, m, [c]);
      if p.err.Some? then Outcome(p.machine, Some(PressFailed(p.err.value))) else p
    else
      var t := InsertText(env, m, [c]);
      if t.err.Some? then Outcome(t.machine, Some(InsertTextFailed(t.err.value))) else t
  }

  /** Types each character in order, stopping at the first failure. */
  function TypeText(env: Env, m: Machine, text: string): (o: Outcome)
    ensures m.log <= o.machine.log && |o.machine.log| <= |m.log| + 2 * |text|
    ensures o.err.Some? ==> o.err.value.PressFailed? || o.err.value.InsertTextFailed?
    decreases |text|
  {
    if text == [] then Outcome(m, None)
    else
      var o := TypeChar(env, m, text[0]);
      if o.err.Some? then o else TypeText(env, o.machine, text[1..])
  }

  // ---------------------------------------------------------------------
  // Traces: what a sequence of operations dispatches, and in which order.

  /** A dispatched command seen as the step it performs. */
  datatype Step = DownStep(token: string) | UpStep(token: string) | InsertStep(text: string)

  function StepOf(c: Command): Step
  {
    match c
    case KeyDown(_, _, _, code, _, _, _, _, _) => DownStep(code)
    case RawKeyDown(_, _, _, code, _, _, _, _, _) => DownStep(code)
    case KeyUp(_, _, _, code, _) => UpStep(code)
    case InsertText(text) => InsertStep(text)
  }

  function Steps(log: seq<Dispatch>): (r: seq<Step>)
    ensures |r| == |log|
    ensures forall i :: 0 <= i < |log| ==> r[i] == StepOf(log[i].command)
  {
    seq(|log|, i requires 0 <= i < |log| => StepOf(log[i].command))
  }

  predicate AllAccepted(log: seq<Dispatch>)
  {
    forall i :: 0 <= i < |log| ==> log[i].ok
  }

  /**
   * The log grew from `before` to `after` by following `script`: what was
   * dispatched is a prefix of the script, nothing was dispatched after a
   * rejected command, and the operation failed exactly when it did not get
   * through the whole script with every command accepted.
   */
  predicate Follows(before: seq<Dispatch>, after: seq<Dispatch>, failed: bool, script: seq<Step>)
  {
    && before <= after
    && Steps(after[|before|..]) <= script
    && (forall i :: |before| <= i < |after| - 1 ==> after[i].ok)
    && (!failed <==> Steps(after[|before|..]) == script && AllAccepted(after[|before|..]))
  }

  function DownScript(keys: seq<string>): (r: seq<Step>)
    ensures |r| == |keys| && forall i :: 0 <= i < |keys| ==> r[i] == DownStep(keys[i])
  {
    seq(|keys|, i requires 0 <= i < |keys| => DownStep(keys[i]))
  }

  function UpScript(keys: seq<string>): (r: seq<Step>)
    ensures |r| == |keys| && forall i :: 0 <= i < |keys| ==> r[i] == UpStep(keys[i])
  {
    seq(|keys|, i requires 0 <= i < |keys| => UpStep(keys[i]))
  }

  /** Downs for the keys left to right, then ups right to left. */
  function ComboScript(kk: seq<string>): seq<Step>
  {
    DownScript(kk) + UpScript(Reverse(kk))
  }

  /** For each character: down and up when it is a layout key, else one insertion. */
  function TypeScript(layout: Layout, text: string): seq<Step>
    decreases |text|
  {
    if text == [] then []
    else
      (if [text[0]] in layout.validKeys then [DownStep([text[0]]), UpStep([text[0]])]
       else [InsertStep([text[0]])])
      + TypeScript(layout, text[1..])
  }

  lemma StepsAppend(x: seq<Dispatch>, y: seq<Dispatch>)
    ensures Steps(x + y) == Steps(x) + Steps(y)
  {
    assert forall i :: |x| <= i < |x| + |y| ==> (x + y)[i] == y[i - |x|];
  }

  lemma PrefixConcat<T>(p: seq<T>, t: seq<T>, s: seq<T>)
    ensures (p + t <= p + s) <==> t <= s
    ensures (p + t == p + s) <==> t == s
  {
    if p + t <= p + s {
      assert t == (p + t)[|p|..];
      assert s[..|t|] == (p + s)[|p|..|p| + |t|];
    }
    if p + t == p + s {
      assert t == (p + t)[|p|..] && s == (p + s)[|p|..];
    }
  }

  lemma AllAcceptedConcat(x: seq<Dispatch>, y: seq<Dispatch>)
    ensures AllAccepted(x + y) <==> AllAccepted(x) && AllAccepted(y)
  {
    assert forall i :: 0 <= i < |x| ==> (x + y)[i] == x[i];
    assert forall i :: 0 <= i < |y| ==> (x + y)[|x| + i] == y[i];
  }

  lemma SliceConcat(a: seq<Dispatch>, b: seq<Dispatch>, c: seq<Dispatch>)
    requires a <= b <= c
    ensures a <= c && c[|a|..] == b[|a|..] + c[|b|..]
  {
  }

  /** Following one script and then another follows their concatenation. */
  lemma FollowsThen(a: seq<Dispatch>, b: seq<Dispatch>, c: seq<Dispatch>, failed: bool,
                    s1: seq<Step>, s2: seq<Step>)
    requires Follows(a, b, false, s1) && Follows(b, c, failed, s2)
    ensures Follows(a, c, failed, s1 + s2)
  {
    var x, y := b[|a|..], c[|b|..];
    SliceConcat(a, b, c);
    StepsAppend(x, y);
    PrefixConcat(s1, Steps(y), s2);
    AllAcceptedConcat(x, y);
    forall i | |a| <= i < |c| - 1 ensures c[i].ok {
      if i < |b| {
        assert c[i] == x[i - |a|];
      }
    }
  }

  /** A failed operation that stopped part-way also follows any longer script. */
  lemma FollowsStopped(a: seq<Dispatch>, b: seq<Dispatch>, s1: seq<Step>, s2: seq<Step>)
    requires Follows(a, b, true, s1)
    ensures Follows(a, b, true, s1 + s2)
  {
    var t := Steps(b[|a|..]);
    assert (s1 + s2)[..|s1|] == s1;
    if s2 != [] {
      assert |t| < |s1 + s2|;
    } else {
      assert s1 + s2 == s1;
    }
  }

  lemma DownFollows(env: Env, m: Machine, key: string)
    ensures Follows(m.log, Down(env, m, key).machine.log, Down(env, m, key).err.Some?, [DownStep(key)])
  {
    var o := Down(env, m, key);
    if key in env.layout.validKeys {
      assert o.machine.log[|m.log|..] == [o.machine.log[|m.log|]];
    } else {
      assert o.machine.log[|m.log|..] == [];
    }
  }

  lemma UpFollows(env: Env, m: Machine, key: string)
    ensures Follows(m.log, Up(env, m, key).machine.log, Up(env, m, key).err.Some?, [UpStep(key)])
  {
    var o := Up(env, m, key);
    if key in env.layout.validKeys {
      assert o.machine.log[|m.log|..] == [o.machine.log[|m.log|]];
    } else {
      assert o.machine.log[|m.log|..] == [];
    }
  }

  lemma {:induction false} DownAllFollows(env: Env, m: Machine, keys: seq<string>)
    ensures Follows(m.log, DownAll(env, m, keys).machine.log, DownAll(env, m, keys).err.Some?,
                    DownScript(keys))
    ensures DownAll(env, m, keys).err.Some? ==> DownAll(env, m, keys).err.value.KeyDownFailed?
    decreases |keys|
  {
    if keys == [] {
      assert m.log[|m.log|..] == [];
    } else {
      var d := Down(env, m, keys[0]);
      DownFollows(env, m, keys[0]);
      assert DownScript(keys) == [DownStep(keys[0])] + DownScript(keys[1..]);
      if d.err.Some? {
        FollowsStopped(m.log, d.machine.log, [DownStep(keys[0])], DownScript(keys[1..]));
      } else {
        DownAllFollows(env, d.machine, keys[1..]);
        FollowsThen(m.log, d.machine.log, DownAll(env, d.machine, keys[1..]).machine.log,
                    DownAll(env, d.machine, keys[1..]).err.Some?, [DownStep(keys[0])], DownScript(keys[1..]));
      }
    }
  }

  lemma {:induction false} UpAllFollows(env: Env, m: Machine, keys: seq<string>)
    ensures Follows(m.log, UpAll(env, m, keys).machine.log, UpAll(env, m, keys).err.Some?,
                    UpScript(keys))
    ensures UpAll(env, m, keys).err.Some? ==> UpAll(env, m, keys).err.value.KeyUpFailed?
    decreases |keys|
  {
    if keys == [] {
      assert m.log[|m.log|..] == [];
    } else {
      var u := Up(env, m, keys[0]);
      UpFollows(env, m, keys[0]);
      assert UpScript(keys) == [UpStep(keys[0])] + UpScript(keys[1..]);
      if u.err.Some? {
        FollowsStopped(m.log, u.machine.log, [UpStep(keys[0])], UpScript(keys[1..]));
      } else {
        UpAllFollows(env, u.machine, keys[1..]);
        FollowsThen(m.log, u.machine.log, UpAll(env, u.machine, keys[1..]).machine.log,
                    UpAll(env, u.machine, keys[1..]).err.Some?, [UpStep(keys[0])], UpScript(keys[1..]));
      }
    }
  }

  /**
   * A combination dispatches downs for its segments left to right, then ups
   * right to left, and stops at the first call that fails.
   */
  lemma ComboPressFollows(env: Env, m: Machine, keys: string)
    ensures Follows(m.log, ComboPress(env, m, keys).machine.log, ComboPress(env, m, keys).err.Some?,
                    ComboScript(Split(keys)))
  {
    var kk := Split(keys);
    var d := DownAll(env, m, kk);
    DownAllFollows(env, m, kk);
    if d.err.Some? {
      FollowsStopped(m.log, d.machine.log, DownScript(kk), UpScript(Reverse(kk)));
    } else {
      UpAllFollows(env, d.machine, Reverse(kk));
      FollowsThen(m.log, d.machine.log, UpAll(env, d.machine, Reverse(kk)).machine.log,
                  UpAll(env, d.machine, Reverse(kk)).err.Some?, DownScript(kk), UpScript(Reverse(kk)));
    }
  }

  lemma PressFollows(env: Env, m: Machine, key: string)
    ensures Follows(m.log, Press(env, m, key).machine.log, Press(env, m, key).err.Some?,
                    [DownStep(key), UpStep(key)])
  {
    var d := Down(env, m, key);
    DownFollows(env, m, key);
    assert [DownStep(key), UpStep(key)] == [DownStep(key)] + [UpStep(key)];
    if d.err.Some? {
      FollowsStopped(m.log, d.machine.log, [DownStep(key)], [UpStep(key)]);
    } else {
      UpFollows(env, d.machine, key);
      FollowsThen(m.log, d.machine.log, Up(env, d.machine, key).machine.log,
                  Up(env, d.machine, key).err.Some?, [DownStep(key)], [UpStep(key)]);
    }
  }

  lemma TypeScriptOne(layout: Layout, c: char)
    ensures TypeScript(layout, [c]) ==
      if [c] in layout.validKeys then [DownStep([c]), UpStep([c])] else [InsertStep([c])]
  {
    var t := [c];
    assert t[0] == c && t[1..] == [];
    assert TypeScript(layout, t[1..]) == [];
  }

  lemma TypeCharFollows(env: Env, m: Machine, c: char)
    ensures Follows(m.log, TypeChar(env, m, c).machine.log, TypeChar(env, m, c).err.Some?,
                    TypeScript(env.layout, [c]))
  {
    TypeScriptOne(env.layout, c);
    if [c] in env.layout.validKeys {
      PressFollows(env, m, [c]);
    } else {
      var t := InsertText(env, m, [c]);
      assert t.machine.log[|m.log|..] == [t.machine.log[|m.log|]];
    }
  }

  /**
   * Typing presses each layout character and inserts every other character
   * on its own, in order, and stops at the first failure.
   */
  lemma {:induction false} TypeTextFollows(env: Env, m: Machine, text: string)
    ensures Follows(m.log, TypeText(env, m, text).machine.log, TypeText(env, m, text).err.Some?,
                    TypeScript(env.layout, text))
    decreases |text|
  {
    if text == [] {
      assert m.log[|m.log|..] == [];
    } else {
      var o := TypeChar(env, m, text[0]);
      TypeCharFollows(env, m, text[0]);
      var first := TypeScript(env.layout, [text[0]]);
      TypeScriptOne(env.layout, text[0]);
      assert TypeScript(env.layout, text) == first + TypeScript(env.layout, text[1..]);
      if o.err.Some? {
        FollowsStopped(m.log, o.machine.log, first, TypeScript(env.layout, text[1..]));
      } else {
        TypeTextFollows(env, o.machine, text[1..]);
        FollowsThen(m.log, o.machine.log, TypeText(env, o.machine, text[1..]).machine.log,
                    TypeText(env, o.machine, text[1..]).err.Some?, first, TypeScript(env.layout, text[1..]));
      }
    }
  }

  /** The session accepts the `n` dispatches from position `start` on. */
  predicate AcceptsRange(env: Env, start: nat, n: nat)
  {
    forall i :: start <= i < start + n ==> env.accepts(i)
  }

  lemma {:induction false} DownAllSucceeds(env: Env, m: Machine, keys: seq<string>)
    requires forall i :: 0 <= i < |keys| ==> keys[i] in env.layout.validKeys
    requires AcceptsRange(env, |m.log|, |keys|)
    ensures DownAll(env, m, keys).err.None?
    ensures |DownAll(env, m, keys).machine.log| == |m.log| + |keys|
    decreases |keys|
  {
    if keys != [] {
      var d := Down(env, m, keys[0]);
      assert env.accepts(|m.log|);
      DownAllSucceeds(env, d.machine, keys[1..]);
    }
  }

  lemma {:induction false} UpAllSucceeds(env: Env, m: Machine, keys: seq<string>)
    requires forall i :: 0 <= i < |keys| ==> keys[i] in env.layout.validKeys
    requires AcceptsRange(env, |m.log|, |keys|)
    ensures UpAll(env, m, keys).err.None?
    ensures |UpAll(env, m, keys).machine.log| == |m.log| + |keys|
    decreases |keys|
  {
    if keys != [] {
      var u := Up(env, m, keys[0]);
      assert env.accepts(|m.log|);
      UpAllSucceeds(env, u.machine, keys[1..]);
    }
  }

  /**
   * When every segment is a valid key and the session accepts every command,
   * a combination succeeds and dispatches exactly: down for each segment left
   * to right, then up for each segment right to left.
   */
  lemma ComboPressOrder(env: Env, m: Machine, keys: string)
    requires forall i :: 0 <= i < |Split(keys)| ==> Split(keys)[i] in env.layout.validKeys
    requires AcceptsRange(env, |m.log|, 2 * |Split(keys)|)
    ensures var o := ComboPress(env, m, keys);
      && o.err.None?
      && m.log <= o.machine.log
      && Steps(o.machine.log[|m.log|..]) == ComboScript(Split(keys))
  {
    var kk := Split(keys);
    DownAllSucceeds(env, m, kk);
    var d := DownAll(env, m, kk);
    var r := Reverse(kk);
    assert forall i :: 0 <= i < |r| ==> r[i] in env.layout.validKeys by {
      forall i | 0 <= i < |r| ensures r[i] in env.layout.validKeys {
        assert r[i] == kk[|kk| - 1 - i];
      }
    }
    UpAllSucceeds(env, d.machine, r);
    ComboPressFollows(env, m, keys);
  }

  /** The up half of a combination script releases the segments in reverse order. */
  lemma ComboScriptReleasesInReverse(kk: seq<string>, j: nat)
    requires j < |kk|
    ensures ComboScript(kk)[j] == DownStep(kk[j])
    ensures ComboScript(kk)[|kk| + j] == UpStep(kk[|kk| - 1 - j])
  {
  }
}
