# Keyboard input and protocol helpers of xk6-browser, in Dafny

This project models two files of the `common` package of xk6-browser, a
browser automation extension for k6 that drives Chromium over the Chrome
DevTools Protocol (CDP).

**`common/keyboard.go`** is the keyboard input device.
- A `Keyboard` holds a modifier bitmask (Alt=1, Control=2, Meta=4, Shift=8)
  and the set of held key codes.
- `down` and `up` first resolve a key token through the keyboard layout into
  a key definition. Then they update that state and send one
  `Input.dispatchKeyEvent` command to the session.
- `press` is a down followed by an up.
- `comboPress` splits `"Shift+a"`-style combinations on `+`. It presses the
  segments left to right and releases them right to left.
- `typ` presses each character that is a key of the layout, and inserts
  every other character on its own.

**`common/helpers.go`** holds the protocol-boundary helpers:
- the conversion of script values and JS handles into CDP call arguments;
- the mapping of the injected script's `error:*` codes to errors;
- list membership;
- quote trimming;
- the event-matching loop behind waiting for an event.

Layout of the project:

| file | module | what |
|---|---|---|
| `wrappers.dfy` | `Wrappers` | `Option`, `Result` |
| `keyboard_layout.dfy` | `KeyboardLayout` | key definitions and the layout, taken as a parameter |
| `key_resolution.dfy` | `KeyResolution` | modifier bits, letter codes, resolving a token into a definition |
| `cdp_session.dfy` | `CdpSession` | the commands sent, and a `Session` class whose log records each command and whether it was accepted |
| `combo_keys.dfy` | `ComboKeys` | splitting a combination and joining it back |
| `keyboard_spec.dfy` | `KeyboardSpec` | the keyboard's operations as functions of (state, log), plus the trace and ordering lemmas |
| `keyboard.dfy` | `Keyboard` | the `Keyboard` class and the `Split` loop, each proved equal to the spec functions |
| `layout_examples.dfy` | `LayoutExamples` | resolution and a full combination on a small concrete layout |
| `decimal.dfy` | `Decimal` | decimal rendering of integers and its parser |
| `helpers.dfy` | `Helpers` | everything from `common/helpers.go` |

How the keyboard is modelled:
- The keyboard's state is the class `Keyboard.Keyboard`. Its fields are
  `modifiers` and `pressedKeys`.
- The CDP session is `CdpSession.Session`. Its `log` records every command
  sent, together with the answer of an accept oracle: the n-th dispatch
  succeeds iff `accepts(n)`.
- Every method of the class carries an `ensures` stating that its new state
  and its error are those a function of `KeyboardSpec` computes from the old
  state. `Down`, `Up`, `InsertText`, `Press` and `ComboPress` match the function
  of the same name. `PressAll` matches `DownAll`, `ReleaseAll` matches `UpAll`
  over the reversed segments, and `Type` matches `TypeText`.
- The properties of the source are proved about those functions. Examples:
  the exact command a down sends; that a combination dispatches downs in
  order and then ups in reverse; that typing stops at the first failure.

Behaviour from the code that readers may not expect:
- `comboPress("Shift+a")` types `a`, not `A`. The token `a` is found by value
  in the layout and is not a `KeyA`..`KeyZ` code, so the shift layer is not
  used (`LayoutExamples.ShiftPlusLowercaseA`). A capital letter needs the
  code token, as in `Shift+KeyA` (`LayoutExamples.ShiftLetterTypesCapital`).
- A down or up changes the keyboard's state before the dispatch. A rejected
  dispatch therefore still leaves the bit set (or cleared) and the key code
  held (or released).

## Model

| member | source | states |
|---|---|---|
| KeyResolution.ModifierBitFromKeyName | common/keyboard.go:281-293 | the switch from key name to modifier bit; its table is stated and proved by KeyResolution.ModifierBitTable and KeyResolution.ModifierBitIsSingle |
| KeyResolution.ModifierBitTable | common/keyboard.go:281-293 | "Alt", "Control", "Meta", "Shift" map to 1, 2, 4, 8, each iff it is that name; every other name maps to 0 |
| KeyResolution.ModifierBitIsSingle | common/keyboard.go:40-45 | every key name sets at most one bit, and only among the four low bits |
| KeyResolution.IsKeyX | common/keyboard.go:248-279 | true iff the token is "Key" followed by one capital A..Z |
| KeyResolution.LetterKeyCodesShape | common/keyboard.go:249-276 | the 26-entry table is exactly the set of strings "Key" + one of A..Z |
| KeyResolution.UTF8Length | common/keyboard.go:208 | Go's byte length of a string lies between its character count and four times it |
| KeyResolution.UTF8LengthOne | common/keyboard.go:208-210 | a string has byte length 1 iff it is one ASCII character |
| KeyResolution.FindSource | common/keyboard.go:188-202 | lookup by code first, then by unmodified value, then by shift value; found-in-shift iff the first two miss |
| KeyResolution.ShiftMask | common/keyboard.go:186-200 | the shift mask is non-zero iff Shift is held or the shift layer was used |
| KeyResolution.KeyDefinitionFromKey | common/keyboard.go:185-246 | code is the token; location comes from the entry; the key code is the entry's, else its shift code when shift is active; key and text take the shift value only for letter codes or shift-layer hits with shift active and a shift value present; text is emptied when Alt, Control or Meta is held |
| KeyResolution.NonShiftModifierSuppressesText | common/keyboard.go:241-244 | with Alt, Control or Meta held the text is empty for every key |
| KeyResolution.NoShiftSubstitutionOutsideLetters | common/keyboard.go:226-240 | a non-letter token found off the shift layer keeps its unshifted key and text even with Shift held |
| KeyResolution.ShiftedLetter | common/keyboard.go:234-244 | a letter code with the Shift bit held and a shift value present takes the shift value as its key, and as its text unless Alt, Control or Meta is held |
| CdpSession.Send | common/keyboard.go:147-149 | sending appends exactly one entry, the command with the oracle's answer, and keeps the log before it (a definition; the trace lemmas below build on it) |
| CdpSession.Session.Execute | common/keyboard.go:147-149 | the session's log becomes the old log plus the command, and the result is the oracle's answer |
| KeyboardSpec.KeyDownCommand | common/keyboard.go:132-146 | raw key-down iff the text is empty; keypad iff location 3; text and unmodified text are the definition's text; all other fields come from the definition |
| KeyboardSpec.KeyUpCommand | common/keyboard.go:164-169 | the key-up builder: the mask given, and the definition's key, key code, code and location (a definition; KeyboardSpec.Up and KeyboardSpec.UpFollows are proved with it) |
| KeyboardSpec.Dispatched | common/keyboard.go:126-151 | the new modifiers and held keys do not depend on the session's answer; exactly one dispatch is appended; the error is set iff that dispatch was rejected (a definition shared by Down and Up; what it means is proved in KeyboardSpec.Down, KeyboardSpec.Up and the trace lemmas) |
| KeyboardSpec.Down | common/keyboard.go:120-152 | an invalid token gives the invalid-key error with nothing dispatched and nothing changed; otherwise exactly one key-down for the resolved definition is sent, carrying the new mask; the resolved key's bit is ORed in; auto-repeat iff the key code was already held; the code is held afterwards; the error is set iff the session rejected the command |
| KeyboardSpec.Up | common/keyboard.go:154-175 | an invalid token changes and dispatches nothing; otherwise exactly one key-up is sent with the definition's key, code and location; the bit is cleared and the command carries the mask after clearing; the key code is no longer held; the error is set iff the session rejected the command |
| KeyboardSpec.InsertText | common/keyboard.go:177-183 | one insert-text command is logged; modifiers and held keys are untouched; the error is set iff the session rejected the command |
| KeyboardSpec.Press | common/keyboard.go:347-360 | the log only grows, by at most two commands and by exactly two on success; a failure is a wrapped key-down failure or a rejected key-up, never an invalid key on the up |
| KeyboardSpec.DownAll | common/keyboard.go:309-313 | the log only grows, by at most one command per segment and by exactly one per segment on success; every failure is wrapped as a key-down failure |
| KeyboardSpec.UpAll | common/keyboard.go:315-320 | the log only grows, by at most one command per segment and by exactly one per segment on success; every failure is wrapped as a key-up failure |
| KeyboardSpec.ComboPress | common/keyboard.go:308-322 | the log only grows, by at most two commands per segment and by exactly two per segment on success; a failure is a wrapped key-down or key-up failure (order: KeyboardSpec.ComboPressFollows) |
| KeyboardSpec.TypeChar | common/keyboard.go:373-382 | the log grows by at most two commands; a failure is a wrapped press or insertion failure, and an insertion failure only for a character outside the layout |
| KeyboardSpec.TypeText | common/keyboard.go:362-385 | the log only grows, by at most two commands per character; every failure is a wrapped press or insertion failure (order: KeyboardSpec.TypeTextFollows) |
| KeyboardSpec.DownFollows | common/keyboard.go:120-152 | a down dispatches at most its one key-down, and fails iff it did not get that dispatch accepted |
| KeyboardSpec.UpFollows | common/keyboard.go:154-175 | an up dispatches at most its one key-up, and fails iff it did not get that dispatch accepted |
| KeyboardSpec.PressFollows | common/keyboard.go:347-360 | a press dispatches a prefix of [down key, up key], nothing after a rejection, and succeeds iff both are sent and accepted |
| KeyboardSpec.DownAllFollows | common/keyboard.go:309-313 | the down loop dispatches a prefix of the downs of the segments in order, stops at the first failure, and wraps it as a key-down failure |
| KeyboardSpec.UpAllFollows | common/keyboard.go:315-320 | the up loop dispatches a prefix of the ups in the given order, stops at the first failure, and wraps it as a key-up failure |
| KeyboardSpec.ComboPressFollows | common/keyboard.go:308-322 | a combination dispatches a prefix of downs left to right followed by ups right to left; nothing follows a failed call; it succeeds iff the whole script was sent and accepted |
| KeyboardSpec.DownAllSucceeds | common/keyboard.go:309-313 | with valid segments and an accepting session, the down loop succeeds and sends one command per segment |
| KeyboardSpec.UpAllSucceeds | common/keyboard.go:315-320 | with valid segments and an accepting session, the up loop succeeds and sends one command per segment |
| KeyboardSpec.ComboPressOrder | common/keyboard.go:308-322 | with valid segments and an accepting session, a combination succeeds and dispatches exactly the downs in order, then the ups in reverse order |
| KeyboardSpec.Steps | common/keyboard.go:126-151 | one step per logged command, naming the key pressed, released or the text inserted (a definition the trace predicate reads; its meaning is carried by the *Follows lemmas) |
| KeyboardSpec.DownScript | common/keyboard.go:309-313 | one key-down step per segment, in order (a definition; KeyboardSpec.ComboScriptReleasesInReverse and KeyboardSpec.DownAllFollows are proved with it) |
| KeyboardSpec.UpScript | common/keyboard.go:315-320 | one key-up step per segment, in order (a definition; KeyboardSpec.ComboScriptReleasesInReverse and KeyboardSpec.UpAllFollows are proved with it) |
| KeyboardSpec.ComboScriptReleasesInReverse | common/keyboard.go:315-316 | the j-th down is segment j and the j-th up is segment n-1-j |
| KeyboardSpec.TypeScriptOne | common/keyboard.go:373-382 | one character's script is [down, up] of that character when it is a layout key, else one insertion of it |
| KeyboardSpec.TypeCharFollows | common/keyboard.go:373-382 | one typed character follows its script and fails iff the press or insertion failed |
| KeyboardSpec.TypeTextFollows | common/keyboard.go:362-385 | typing dispatches a prefix of the per-character scripts in order, nothing after a rejection, and succeeds iff every character's commands were sent and accepted |
| ComboKeys.SplitFrom | common/keyboard.go:334-342 | the loop over the remaining characters always produces at least one segment |
| ComboKeys.Split | common/keyboard.go:329-345 | a combination always splits into at least one segment |
| ComboKeys.SplitFromJoin | common/keyboard.go:334-342 | joining what the loop produces with '+' gives back the pending segment plus the rest of the input |
| ComboKeys.SplitJoin | common/keyboard.go:325-345 | joining the segments with '+' gives back the input |
| ComboKeys.SplitFromWellSplit | common/keyboard.go:334-342 | from a pending segment whose only '+' is its first character, every produced segment but the last is non-empty and has '+' only first |
| ComboKeys.SplitWellSplit | common/keyboard.go:325-345 | every segment but the last is non-empty, and a '+' appears only as a segment's first character |
| ComboKeys.Absorb | common/keyboard.go:334-341 | characters that do not split are appended to the pending segment |
| ComboKeys.JoinSplit | common/keyboard.go:325-345 | splitting the join of well-formed segments gives those segments back |
| ComboKeys.SplitUnique | common/keyboard.go:325-345 | the split is the only well-formed list of segments whose join is the input |
| ComboKeys.SplitPlusExamples | common/keyboard.go:325-328 | "+" gives ["+"], "++" gives ["+", ""], "+++" gives ["+", "+"], "a+b" gives ["a", "b"] |
| ComboKeys.Reverse | common/keyboard.go:315-316 | position i of the reversal holds element n-1-i (a definition of the up loop's index order; KeyboardSpec.ComboScriptReleasesInReverse and KeyboardSpec.ComboPressOrder are proved with it) |
| ComboKeys.ReverseReverse | common/keyboard.go:315-316 | reversing twice gives the sequence back |
| ComboKeys.ReverseAppend | common/keyboard.go:315-316 | the reversal of x + y is the reversal of y followed by the reversal of x |
| Keyboard.Split | common/keyboard.go:329-345 | the character loop with its pending segment computes exactly ComboKeys.Split |
| Keyboard.Keyboard.constructor | common/keyboard.go:59-68 | a new keyboard holds no modifiers and no keys |
| Keyboard.Keyboard.Down | common/keyboard.go:120-152 | state, log and error after the call are those of KeyboardSpec.Down |
| Keyboard.Keyboard.Up | common/keyboard.go:154-175 | state, log and error after the call are those of KeyboardSpec.Up |
| Keyboard.Keyboard.InsertText | common/keyboard.go:177-183 | log and error after the call are those of KeyboardSpec.InsertText |
| Keyboard.Keyboard.Press | common/keyboard.go:347-360 | down then up, the down's failure wrapped, as KeyboardSpec.Press |
| Keyboard.Keyboard.PressAll | common/keyboard.go:309-313 | the down loop computes KeyboardSpec.DownAll |
| Keyboard.Keyboard.ReleaseAll | common/keyboard.go:315-320 | the up loop, indexing from the last segment, computes KeyboardSpec.UpAll over the reversed segments |
| Keyboard.Keyboard.ComboPress | common/keyboard.go:308-322 | split, then the down loop, then the up loop only if every down succeeded, computes KeyboardSpec.ComboPress |
| Keyboard.Keyboard.Type | common/keyboard.go:362-385 | the character loop computes KeyboardSpec.TypeText |
| LayoutExamples.ShiftDigitTypesDigit | common/keyboard.go:232-233 | with Shift held, the digit-2 key types "2", not "@" |
| LayoutExamples.ShiftLetterTypesCapital | common/keyboard.go:226-240 | with Shift held, "KeyA" types "A" |
| LayoutExamples.AtSignFromShiftLayer | common/keyboard.go:194-202 | "@" is found on the shift layer and types "@" with the digit key's code number |
| LayoutExamples.ControlSuppressesText | common/keyboard.go:241-244 | with Control held, "KeyA" has key "a" and no text |
| LayoutExamples.ShiftWithLowercaseToken | common/keyboard.go:234-240 | with Shift held, the token "a" still types "a" |
| LayoutExamples.KeypadLocation | common/keyboard.go:143 | a numeric-keypad key is sent with the keypad flag |
| LayoutExamples.ResolveShift | common/keyboard.go:188-193 | the token "Shift" resolves by value, and the token becomes the code |
| LayoutExamples.ResolveLowercaseA | common/keyboard.go:190-210 | under Shift, the token "a" resolves to key "a" with text "a" |
| LayoutExamples.PressShift | common/keyboard.go:126-146 | pressing Shift sets bit 8 and sends a raw key-down carrying mask 8 |
| LayoutExamples.PressLetter | common/keyboard.go:126-146 | pressing "a" under Shift sends a key-down with text "a" and mask 8 |
| LayoutExamples.ReleaseLetter | common/keyboard.go:160-169 | releasing "a" keeps mask 8 and forgets code 65 |
| LayoutExamples.ReleaseShift | common/keyboard.go:160-169 | releasing Shift clears the mask and the command carries 0 |
| LayoutExamples.PressBoth | common/keyboard.go:309-313 | the down loop of "Shift+a" presses Shift, then a |
| LayoutExamples.ReleaseBoth | common/keyboard.go:315-320 | the up loop releases a, then Shift |
| LayoutExamples.ShiftPlusLowercaseA | common/keyboard.go:308-322 | "Shift+a" sends exactly four commands, the letter's text is "a", and it ends with no modifiers held |
| Helpers.ConvertBaseJSHandleTypes | common/helpers.go:40-56 | wrong context is reported iff the contexts differ; disposal iff same context and disposed; otherwise success with exactly one field set: the unserializable value if non-empty, else the plain value if there is no object id, else the object id |
| Helpers.ConvertedHandleKind | common/helpers.go:47-55 | for a usable handle, each of the three argument kinds is chosen iff its condition holds |
| Helpers.ConvertArgument | common/helpers.go:58-99 | integers above 2147483647 become their decimal numeral plus "n", iff above; other integers become JSON numbers; -0, +Inf, -Inf and NaN become "-0", "Infinity", "-Infinity", "NaN"; finite floats are JSON-encoded; both handle kinds delegate to ConvertBaseJSHandleTypes; other values succeed iff they encode, and a failed encoding is exactly the marshal failure; a marshal failure comes only from other values |
| Helpers.ConvertArgumentAsWritten | common/helpers.go:68-88 | every float equal to -0 under IEEE, +0 included, is sent as "-0"; +Inf, -Inf and NaN become "Infinity", "-Infinity", "NaN"; non-zero finite floats are JSON-encoded; non-floats as ConvertArgument |
| Helpers.AsWrittenDiffersOnlyAtPositiveZero | common/helpers.go:68-88 | over all inputs, the conversion as written and the corrected one differ exactly on the float +0.0 |
| Helpers.PositiveZeroSentAsNegative | common/helpers.go:70-73 | +0.0 is sent as "-0" by the conversion as written and as the JSON number 0 by the corrected one |
| Helpers.BigIntLiteralRoundTrip | common/helpers.go:61-65 | a large integer's literal is digits followed by "n", and those digits read back as the integer |
| Helpers.SmallIntRoundTrip | common/helpers.go:66-67 | every integer up to 2147483647, negatives below the int32 range included, becomes a JSON number that reads back as the integer |
| Helpers.FirstBigInt | common/helpers.go:61-65 | 2147483648 becomes "2147483648n" |
| Decimal.NatDigits | common/helpers.go:63 | a non-empty numeral of digits with a leading zero iff the number is 0 |
| Decimal.FormatInt | common/helpers.go:63 | a minus sign iff negative, followed by the digits of the magnitude |
| Decimal.ParseNatDigits | common/helpers.go:63 | reading the numeral of n gives n |
| Decimal.FormatIntRoundTrip | common/helpers.go:66 | parsing the rendering of any integer gives the integer back |
| Decimal.FormatIntInjective | common/helpers.go:63 | different integers render differently |
| Helpers.LastIndex | common/helpers.go:164 | the index of the last occurrence, with no occurrence after it, or -1 when there is none |
| Helpers.ErrorFromDOMError | common/helpers.go:128-169 | each of the 15 listed codes gives its fixed message; the result is the timeout error iff the code is "error:timeout"; a code outside the table, not the timeout code and without the expected-node prefix becomes the message itself |
| Helpers.ExpectedNodeNotFixed | common/helpers.go:129-163 | no listed code and not the timeout code carries the expected-node prefix, so the prefix rule is reached |
| Helpers.ExpectedNodeSuffix | common/helpers.go:163-166 | an expected-node code reports "expected node but got " plus a suffix that starts with a colon, ends the code and holds no other colon |
| Helpers.LastColon | common/helpers.go:164 | the last colon of p + ":" + t is the one before t when t has none |
| Helpers.ExpectedNodeName | common/helpers.go:163-166 | "error:expectednode:" + a colon-free name gives "expected node but got :" + that name |
| Helpers.StringSliceContains | common/helpers.go:171-178 | true iff some element of the list equals the string |
| Helpers.TrimQuotes | common/helpers.go:285-292 | removes exactly the two end characters iff the length is at least 2 and both ends are the same quote character, otherwise returns the input; the length is kept or drops by two |
| Helpers.TrimQuotesOfQuoted | common/helpers.go:281-292 | trimming a string wrapped in one kind of quote gives back the string |
| Helpers.UnbalancedQuotesKept | common/helpers.go:282-283 | `"'arg`, `'arg"` and a lone quote are returned unchanged |
| Helpers.TrimQuotesNotIdempotent | common/helpers.go:285-292 | only one layer is removed: trimming `"'a'"` once gives `'a'`, twice gives `a` |
| Helpers.FirstAwaited | common/helpers.go:192-197 | the first event whose type is awaited; no earlier event has an awaited type |
| Helpers.Delivery | common/helpers.go:197-205 | a value is delivered iff there is a predicate and it accepts the data, and then it is the data; otherwise nil |
| Helpers.WaitOutcome | common/helpers.go:191-213 | the handler waits forever iff no event has an awaited type; otherwise it consumes up to and including the first such event, and delivers nil without a predicate, the data if the predicate accepts it, and nil if the predicate refuses it |
| Helpers.HandleEvents | common/helpers.go:191-213 | the handler loop computes WaitOutcome |
| Helpers.WaitForEvent | common/helpers.go:220-233 | the delivered value with no error, or the timeout error iff no awaited event arrived |
| Helpers.RefusedEventEndsWait | common/helpers.go:197-205 | a first awaited event that the predicate refuses ends the wait with nil, though a later event would satisfy it |
| Helpers.FirstSatisfying | common/helpers.go:197-200 | the first awaited event the predicate accepts; no earlier event is both awaited and accepted |
| Helpers.WaitForSatisfyingEvent | common/helpers.go:197-205 | with a predicate, the wait delivers the data of the first awaited event it accepts, and waits iff there is none; without one it is WaitOutcome |
| Helpers.SatisfyingEventDelivered | common/helpers.go:197-205 | on the same events, the corrected wait delivers the second event's data |
| Helpers.WaitsAgreeWhenFirstSatisfies | common/helpers.go:197-205 | when the first awaited event satisfies the predicate, or there is no predicate, both waits agree |

## Left out

- Delays and cancellation in `comboPress`, `press` and `typ` are not modelled (common/keyboard.go:296-306, 348-355, 365-372). These are timers and context selection. On cancellation `comboPress` returns `context.Canceled` before doing anything, while `press` and `typ` carry on.
- The public `Down`/`Up`/`Press`/`Type`/`InsertText` wrappers are not modelled (common/keyboard.go:70-118). They only parse script options and raise script exceptions.
- The `keyboardlayout` package is not part of this model. A layout is a parameter: its `validKeys`, its `keys` table, and its two lookups by value and by shift value.
- CDP transport is not modelled. Sending a command is an entry in the session's log, and an oracle says whether it was accepted.
- Error messages are kept only as their kind and wrapping. The model does not produce the text of the `fmt.Errorf` messages.
- KeyResolution.KeyDefinitionFromKey: the modifier mask is an 8-bit vector, not Go's int64. Only bits 1, 2, 4 and 8 are ever set, so the results are the same.
- KeyboardSpec.TypeText: `typ` looks the layout up again by name (common/keyboard.go:363). The model uses the keyboard's own layout, which is the same one when the layout name was not changed.
- Go iterates a string by runes and `len` counts bytes. The model works on characters, and the byte length is computed as UTF-8 (`KeyResolution.UTF8Length`). `TrimQuotes` compares bytes, but quotes are ASCII and UTF-8 continuation bytes never are, so comparing characters is equivalent.
- Helpers.ErrorFromDOMError: the fallback passes the code to `fmt.Errorf` as a format string, so a code containing `%` would come out rewritten. The model returns the code verbatim.
- Helpers.ConvertArgument: goja reflection and `json.Marshal` are replaced by an input variant and an encoder parameter. A float is classed as -0, +Inf, -Inf, NaN or a finite real.
- Helpers.ConvertArgument: `json.Marshal` of a non-integer value returns both an argument and the error. The model keeps only the error (`MarshalFailed`).
- Helpers.WaitForEvent: goroutines, channels, `emitter.on`, the timer and context cancellation are not modelled (common/helpers.go:187-233). The event stream is the finite list of events that arrive before the timeout. The `ctx.Done()` branch, which returns nil with no error, is not modelled.
- `callApiWithTimeout` is not modelled (common/helpers.go:101-126). It is concurrent waiting on a goroutine.
- `k6Throw`, `k6ThrowUnsafe` and `k6ThrowOnce` are not modelled (common/helpers.go:235-279). They kill a process, rely on `sync.Once` and reach into the k6 runtime.
- `common/frame_test.go` is not modelled. It exercises frame code that is not part of this model.

## Findings

| source | as written | input that shows it | evidently intended | confidence | as-written member | corrected member |
|---|---|---|---|---|---|---|
| common/helpers.go:197-205 | the first event of an awaited type ends the wait even when the predicate refuses it; nil is delivered and the channel closed | events ["load"], predicate `d == 2`, events load(1) then load(2): delivers nil after one event | keep waiting until an awaited event satisfies the predicate | not executed; medium | Helpers.RefusedEventEndsWait | Helpers.WaitForSatisfyingEvent |
| common/helpers.go:70 | `f == -0.0` is IEEE equality, which +0.0 also satisfies | float argument +0.0 is sent as UnserializableValue "-0" | only negative zero is sent as "-0"; +0.0 is JSON `0` | not executed; low (the script runtime may never export +0 as a float) | Helpers.PositiveZeroSentAsNegative, Helpers.AsWrittenDiffersOnlyAtPositiveZero | Helpers.ConvertArgument |
