/**
 * The protocol-boundary helpers of the common package: turning script
 * values and JS handles into call arguments, mapping injected-script DOM
 * error codes to errors, membership in a list of strings, quote trimming,
 * and the decision logic of waiting for one event.
 */
module Helpers {
  import opened Wrappers
  import opened Decimal

  newtype int64 = x: int | -0x8000_0000_0000_0000 <= x < 0x8000_0000_0000_0000

  const MaxInt32: int := 2147483647

  /** An execution context is compared by identity only. */
  type ExecutionContextId = nat

  /** The three alternative ways a remote object may be described (empty string = unset). */
  datatype RemoteObject = RemoteObject(unserializableValue: string, objectId: string, value: string)

  datatype BaseJSHandle = BaseJSHandle(execCtx: ExecutionContextId, disposed: bool, remoteObject: RemoteObject)

  /** A protocol call argument populates exactly one of its three fields. */
  datatype CallArgument =
    | ValueArgument(json: string)
    | UnserializableArgument(unserializable: string)
    | ObjectIdArgument(objectId: string)

  datatype Error =
    | WrongExecutionContext
    | JSHandleDisposed
    | TimedOut
    | MarshalFailed
    | Message(text: string)

  /**
   * A handle becomes a call argument only in its own execution context and
   * while not disposed; the context is checked first, then disposal, then the
   * description in the order unserializable value, plain value, object id.
   */
  function ConvertBaseJSHandleTypes(execCtx: ExecutionContextId, h: BaseJSHandle): (r: Result<CallArgument, Error>)
    ensures r == Failure(WrongExecutionContext) <==> h.execCtx != execCtx
    ensures r == Failure(JSHandleDisposed) <==> h.execCtx == execCtx && h.disposed
    ensures r.Success? <==> h.execCtx == execCtx && !h.disposed
    ensures r.Success? && r.value.UnserializableArgument? ==>
      r.value.unserializable == h.remoteObject.unserializableValue != ""
    ensures r.Success? && r.value.ValueArgument? ==>
      h.remoteObject.unserializableValue == "" && h.remoteObject.objectId == "" &&
      r.value.json == h.remoteObject.value
    ensures r.Success? && r.value.ObjectIdArgument? ==>
      h.remoteObject.unserializableValue == "" && r.value.objectId == h.remoteObject.objectId != ""
  {
    if h.execCtx != execCtx then Failure(WrongExecutionContext)
    else if h.disposed then Failure(JSHandleDisposed)
    else if h.remoteObject.unserializableValue != "" then
      Success(UnserializableArgument(h.remoteObject.unserializableValue))
    else if h.remoteObject.objectId == "" then Success(ValueArgument(h.remoteObject.value))
    else Success(ObjectIdArgument(h.remoteObject.objectId))
  }

  /** A usable handle yields an argument of the kind its description calls for. */
  lemma ConvertedHandleKind(execCtx: ExecutionContextId, h: BaseJSHandle)
    requires h.execCtx == execCtx && !h.disposed
    ensures ConvertBaseJSHandleTypes(execCtx, h).Success?
    ensures ConvertBaseJSHandleTypes(execCtx, h).value.UnserializableArgument? <==>
      h.remoteObject.unserializableValue != ""
    ensures ConvertBaseJSHandleTypes(execCtx, h).value.ValueArgument? <==>
      h.remoteObject.unserializableValue == "" && h.remoteObject.objectId == ""
    ensures ConvertBaseJSHandleTypes(execCtx, h).value.ObjectIdArgument? <==>
      h.remoteObject.unserializableValue == "" && h.remoteObject.objectId != ""
  {
  }

  /** The IEEE classes a float64 argument can fall into; `Finite(0.0)` is +0. */
  datatype Float = NegativeZero | PositiveInfinity | NegativeInfinity | NotANumber | Finite(x: real)

  /** A script value after reflection: the kinds the conversion tells apart. */
  datatype Argument<V> =
    | IntArgument(i: int64)
    | FloatArgument(f: Float)
    | ElementHandleArgument(handle: BaseJSHandle)
    | JSHandleArgument(handle: BaseJSHandle)
    | OtherArgument(v: V)

  /**
   * JSON encoding of what is not an integer: finite floats always encode,
   * any other value may fail (None).
   */
  datatype JsonEncoder<!V> = JsonEncoder(float: real -> string, other: V -> Option<string>)

  /** `==` on float64 as the conversion uses it, against -0, +Inf and -Inf. */
  predicate FloatEquals(f: Float, g: Float)
  {
    match (f, g)
    case (NotANumber, _) => false
    case (_, NotANumber) => false
    case (NegativeZero, Finite(y)) => y == 0.0
    case (Finite(x), NegativeZero) => x == 0.0
    case _ => f == g
  }

  function EncodeOther<V>(enc: JsonEncoder<V>, v: V): Result<CallArgument, Error>
  {
    match enc.other(v)
    case Some(b) => Success(ValueArgument(b))
    case None => Failure(MarshalFailed)
  }

  /**
   * The conversion as written: the first float test is IEEE equality with
   * negative zero, which positive zero passes too.
   */
  function ConvertArgumentAsWritten<V>(execCtx: ExecutionContextId, enc: JsonEncoder<V>, arg: Argument<V>): (r: Result<CallArgument, Error>)
    ensures arg.FloatArgument? && FloatEquals(arg.f, NegativeZero) ==> r == Success(UnserializableArgument("-0"))
    ensures arg == FloatArgument(PositiveInfinity) ==> r == Success(UnserializableArgument("Infinity"))
    ensures arg == FloatArgument(NegativeInfinity) ==> r == Success(UnserializableArgument("-Infinity"))
    ensures arg == FloatArgument(NotANumber) ==> r == Success(UnserializableArgument("NaN"))
    ensures arg.FloatArgument? && arg.f.Finite? && arg.f.x != 0.0 ==> r == Success(ValueArgument(enc.float(arg.f.x)))
    ensures !arg.FloatArgument? ==> r == ConvertArgument(execCtx, enc, arg)
  {
    match arg
    case FloatArgument(f) =>
      if FloatEquals(f, NegativeZero) then Success(UnserializableArgument("-0"))
      else if FloatEquals(f, PositiveInfinity) then Success(UnserializableArgument("Infinity"))
      else if FloatEquals(f, NegativeInfinity) then Success(UnserializableArgument("-Infinity"))
      else if f.NotANumber? then Success(UnserializableArgument("NaN"))
      else Success(ValueArgument(enc.float(f.x)))
    case _ => ConvertArgument(execCtx, enc, arg)
  }

  /** The conversion as written and the corrected one differ on exactly one input: positive zero. */
  lemma AsWrittenDiffersOnlyAtPositiveZero<V>(execCtx: ExecutionContextId, enc: JsonEncoder<V>, arg: Argument<V>)
    ensures ConvertArgumentAsWritten(execCtx, enc, arg) != ConvertArgument(execCtx, enc, arg) <==>
      arg == FloatArgument(Finite(0.0))
  {
  }

  /** Positive zero is sent as the unserializable "-0". */
  lemma PositiveZeroSentAsNegative<V>(execCtx: ExecutionContextId, enc: JsonEncoder<V>)
    ensures ConvertArgumentAsWritten(execCtx, enc, FloatArgument(Finite(0.0))) == Success(UnserializableArgument("-0"))
    ensures ConvertArgument(execCtx, enc, FloatArgument(Finite(0.0))) == Success(ValueArgument(enc.float(0.0)))
  {
  }

  /**
   * Converts a script value to a call argument: integers above the int32
   * range become BigInt literals, the non-finite floats and negative zero
   * their unserializable names, handles go through ConvertBaseJSHandleTypes,
   * everything else is JSON-encoded.
   */
  function ConvertArgument<V>(execCtx: ExecutionContextId, enc: JsonEncoder<V>, arg: Argument<V>): (r: Result<CallArgument, Error>)
    ensures arg.IntArgument? ==>
      (r.Success? && r.value.UnserializableArgument? <==> arg.i as int > MaxInt32)
    ensures arg.IntArgument? && arg.i as int > MaxInt32 ==>
      r == Success(UnserializableArgument(FormatInt(arg.i as int) + "n"))
    ensures arg.IntArgument? && arg.i as int <= MaxInt32 ==>
      r == Success(ValueArgument(FormatInt(arg.i as int)))
    ensures arg == FloatArgument(NegativeZero) ==> r == Success(UnserializableArgument("-0"))
    ensures arg == FloatArgument(PositiveInfinity) ==> r == Success(UnserializableArgument("Infinity"))
    ensures arg == FloatArgument(NegativeInfinity) ==> r == Success(UnserializableArgument("-Infinity"))
    ensures arg == FloatArgument(NotANumber) ==> r == Success(UnserializableArgument("NaN"))
    ensures arg.FloatArgument? && arg.f.Finite? ==> r == Success(ValueArgument(enc.float(arg.f.x)))
    ensures arg.ElementHandleArgument? || arg.JSHandleArgument? ==>
      r == ConvertBaseJSHandleTypes(execCtx, arg.handle)
    ensures arg.OtherArgument? ==>
      (r.Success? <==> enc.other(arg.v).Some?) &&
      (r.Success? ==> r == Success(ValueArgument(enc.other(arg.v).value)))
    ensures arg.OtherArgument? && enc.other(arg.v).None? ==> r == Failure(MarshalFailed)
    ensures r.Failure? && r.error == MarshalFailed ==> arg.OtherArgument?
  {
    match arg
    case IntArgument(i) =>
      if i as int > MaxInt32 then Success(UnserializableArgument(FormatInt(i as int) + "n"))
      else Success(ValueArgument(FormatInt(i as int)))
    case FloatArgument(f) =>
      if f.NegativeZero? then Success(UnserializableArgument("-0"))
      else if f.PositiveInfinity? then Success(UnserializableArgument("Infinity"))
      else if f.NegativeInfinity? then Success(UnserializableArgument("-Infinity"))
      else if f.NotANumber? then Success(UnserializableArgument("NaN"))
      else Success(ValueArgument(enc.float(f.x)))
    case ElementHandleArgument(h) => ConvertBaseJSHandleTypes(execCtx, h)
    case JSHandleArgument(h) => ConvertBaseJSHandleTypes(execCtx, h)
    case OtherArgument(v) => EncodeOther(enc, v)
  }

  /**
   * A large integer's BigInt literal is its decimal numeral followed by `n`,
   * and reading the numeral back gives the integer.
   */
  lemma BigIntLiteralRoundTrip<V>(execCtx: ExecutionContextId, enc: JsonEncoder<V>, i: int64)
    requires i as int > MaxInt32
    ensures var r := ConvertArgument(execCtx, enc, IntArgument(i));
      r.Success? && r.value.UnserializableArgument? &&
      var u := r.value.unserializable;
      |u| >= 2 && u[|u| - 1] == 'n' && AllDigits(u[..|u| - 1]) && ParseDigits(u[..|u| - 1]) == i as int
  {
    var u := FormatInt(i as int) + "n";
    assert u[..|u| - 1] == NatDigits(i as int);
    ParseNatDigits(i as int);
  }

  /** Integers in the int32 range and below it are JSON numbers that read back exactly. */
  lemma SmallIntRoundTrip<V>(execCtx: ExecutionContextId, enc: JsonEncoder<V>, i: int64)
    requires i as int <= MaxInt32
    ensures var r := ConvertArgument(execCtx, enc, IntArgument(i));
      r.Success? && r.value.ValueArgument? && ParseInt(r.value.json) == i as int
  {
    FormatIntRoundTrip(i as int);
  }

  /** The first integer past the int32 range becomes the BigInt literal "2147483648n". */
  lemma FirstBigInt<V>(execCtx: ExecutionContextId, enc: JsonEncoder<V>)
    ensures ConvertArgument(execCtx, enc, IntArgument(2147483648)) ==
      Success(UnserializableArgument("2147483648n"))
  {
    assert NatDigits(2) == "2";
    assert NatDigits(21) == "21";
    assert NatDigits(214) == "214";
    assert NatDigits(2147) == "2147";
    assert NatDigits(21474) == "21474";
    assert NatDigits(214748) == "214748";
    assert NatDigits(2147483) == "2147483";
    assert NatDigits(21474836) == "21474836";
    assert NatDigits(214748364) == "214748364";
    assert NatDigits(2147483648) == "2147483648";
    assert FormatInt(2147483648) + "n" == "2147483648n";
  }

  // ---- DOM error codes ----

  /** The fixed messages of the codes returned by the injected script. */
  const DomErrorMessages: map<string, string> := map[
    "error:notconnected" := "element is not attached to the DOM",
    "error:notelement" := "node is not an element",
    "error:nothtmlelement" := "not an HTMLElement",
    "error:notfillableelement" := "element is not an <input>, <textarea> or [contenteditable] element",
    "error:notfillableinputtype" := "input of this type cannot be filled",
    "error:notfillablenumberinput" := "cannot type text into input[type=number]",
    "error:notvaliddate" := "malformed value",
    "error:notinput" := "node is not an HTMLInputElement",
    "error:hasnovalue" := "node is not an HTMLInputElement or HTMLTextAreaElement or HTMLSelectElement",
    "error:notselect" := "element is not a <select> element",
    "error:notcheckbox" := "not a checkbox or radio button",
    "error:notmultiplefileinput" := "non-multiple file input can only accept single file",
    "error:strictmodeviolation" := "strict mode violation, multiple elements were returned for selector query",
    "error:notqueryablenode" := "node is not queryable",
    "error:nthnocapture" := "can't query n-th element in a chained selector with capture"
  ]

  const ExpectedNodePrefix := "error:expectednode:"
  const ExpectedNodeMessage := "expected node but got "

  predicate HasPrefix(s: string, p: string) { |p| <= |s| && s[..|p|] == p }

  /** The index of the last occurrence of `c` among the first `n` characters of `s`, or -1. */
  function LastIndexBefore(s: string, c: char, n: nat): (i: int)
    requires n <= |s|
    ensures -1 <= i < n
    ensures i >= 0 ==> s[i] == c
    ensures forall j :: i < j < n ==> s[j] != c
    decreases n
  {
    if n == 0 then -1
    else if s[n - 1] == c then n - 1
    else LastIndexBefore(s, c, n - 1)
  }

  /** The index of the last occurrence of `c` in `s`, or -1 (`strings.LastIndex`). */
  function LastIndex(s: string, c: char): (i: int)
    ensures -1 <= i < |s|
    ensures i >= 0 ==> s[i] == c
    ensures forall j :: i < j < |s| ==> s[j] != c
  {
    LastIndexBefore(s, c, |s|)
  }

  function ErrorFromDOMError(domErr: string): (e: Error)
    ensures domErr in DomErrorMessages ==> e == Message(DomErrorMessages[domErr])
    ensures e == TimedOut <==> domErr == "error:timeout"
    ensures domErr !in DomErrorMessages && domErr != "error:timeout" && !HasPrefix(domErr, ExpectedNodePrefix) ==>
      e == Message(domErr)
  {
    if domErr in DomErrorMessages then Message(DomErrorMessages[domErr])
    else if domErr == "error:timeout" then TimedOut
    else if HasPrefix(domErr, ExpectedNodePrefix) then
      assert domErr[..|ExpectedNodePrefix|][18] == ':';
      Message(ExpectedNodeMessage + domErr[LastIndex(domErr, ':')..])
    else Message(domErr)
  }

  /** None of the fixed codes, nor the timeout code, starts like an "expected node" code. */
  lemma ExpectedNodeNotFixed(domErr: string)
    requires HasPrefix(domErr, ExpectedNodePrefix)
    ensures domErr !in DomErrorMessages && domErr != "error:timeout"
  {
    assert domErr[..|ExpectedNodePrefix|][6] == 'e';
    forall k | k in DomErrorMessages ensures |k| > 6 && k[6] != 'e' { }
  }

  /**
   * An "expected node" code reports what follows its last colon, that colon
   * included: the reported suffix ends the code and holds no other colon.
   */
  lemma ExpectedNodeSuffix(domErr: string)
    requires HasPrefix(domErr, ExpectedNodePrefix)
    ensures ErrorFromDOMError(domErr).Message?
    ensures var t := ErrorFromDOMError(domErr).text;
      HasPrefix(t, ExpectedNodeMessage) &&
      var suffix := t[|ExpectedNodeMessage|..];
      |suffix| >= 1 && suffix[0] == ':' && (forall j :: 1 <= j < |suffix| ==> suffix[j] != ':') &&
      |ExpectedNodePrefix| - 1 <= |domErr| - |suffix| &&
      domErr == domErr[..|domErr| - |suffix|] + suffix
  {
    ExpectedNodeNotFixed(domErr);
    var i := LastIndex(domErr, ':');
    assert domErr[|ExpectedNodePrefix| - 1] == ':';
    var t := ErrorFromDOMError(domErr).text;
    assert t == ExpectedNodeMessage + domErr[i..];
    assert t[|ExpectedNodeMessage|..] == domErr[i..];
  }

  /** The last colon of `p + ":" + t` is the one before `t` when `t` has none. */
  lemma LastColon(p: string, t: string)
    requires forall j :: 0 <= j < |t| ==> t[j] != ':'
    ensures LastIndex(p + [':'] + t, ':') == |p|
  {
    var s := p + [':'] + t;
    assert s[|p|] == ':';
    assert forall j :: |p| < j < |s| ==> s[j] == t[j - |p| - 1];
  }

  /** An "expected node" code followed by a colon-free name reports ":" and that name. */
  lemma ExpectedNodeName(name: string)
    requires forall j :: 0 <= j < |name| ==> name[j] != ':'
    ensures ErrorFromDOMError(ExpectedNodePrefix + name) == Message(ExpectedNodeMessage + [':'] + name)
  {
    var s := ExpectedNodePrefix + name;
    var p := "error:expectednode";
    assert s == p + [':'] + name;
    assert s[..|ExpectedNodePrefix|] == ExpectedNodePrefix;
    ExpectedNodeNotFixed(s);
    LastColon(p, name);
    assert s[|p|..] == [':'] + name;
  }

  // ---- strings ----

  /** Linear search of a list of strings. */
  method StringSliceContains(s: seq<string>, e: string) returns (r: bool)
    ensures r <==> e in s
  {
    var i := 0;
    while i < |s|
      invariant 0 <= i <= |s|
      invariant e !in s[..i]
    {
      if s[i] == e {
        return true;
      }
      i := i + 1;
    }
    assert s[..i] == s;
    return false;
  }

  predicate IsQuote(c: char) { c == '"' || c == '\'' }

  /** Removes one pair of matching surrounding quotes; anything else is left alone. */
  function TrimQuotes(s: string): (r: string)
    ensures |r| == |s| || |r| == |s| - 2
    ensures |r| == |s| - 2 <==> |s| >= 2 && s[0] == s[|s| - 1] && IsQuote(s[0])
    ensures |r| == |s| - 2 ==> s == [s[0]] + r + [s[0]]
    ensures |r| == |s| ==> r == s
  {
    if |s| >= 2 && s[0] == s[|s| - 1] && IsQuote(s[0]) then s[1..|s| - 1] else s
  }

  /** Trimming undoes quoting with either kind of quote. */
  lemma TrimQuotesOfQuoted(q: char, s: string)
    requires IsQuote(q)
    ensures TrimQuotes([q] + s + [q]) == s
  {
    var t := [q] + s + [q];
    assert t[1..|t| - 1] == s;
  }

  /** A string whose ends are not one matching quote comes back unchanged. */
  lemma UnbalancedQuotesKept()
    ensures TrimQuotes("\"'arg") == "\"'arg"
    ensures TrimQuotes("'arg\"") == "'arg\""
    ensures TrimQuotes("\"") == "\""
  {
  }

  /** Only one layer is removed: trimming twice differs from trimming once. */
  lemma TrimQuotesNotIdempotent()
    ensures TrimQuotes("\"'a'\"") == "'a'"
    ensures TrimQuotes(TrimQuotes("\"'a'\"")) == "a"
  {
    assert "\"'a'\""[1..4] == "'a'";
    assert "'a'"[1..2] == "a";
  }

  // ---- waiting for an event ----

  datatype Event<D> = Event(typ: string, data: D)

  /**
   * What the handler produces: the number of events it consumed and the value
   * it delivers (None for nil), or Waiting if no event ended the wait.
   */
  datatype WaitResult<D> = Delivered(consumed: nat, value: Option<D>) | Waiting

  /** The index of the first event at or after `from` whose type is awaited. */
  function FirstAwaited<D>(stream: seq<Event<D>>, events: seq<string>, from: nat): (k: Option<nat>)
    requires from <= |stream|
    ensures k.Some? ==> from <= k.value < |stream| && stream[k.value].typ in events
    ensures forall j :: from <= j < |stream| && (k.None? || j < k.value) ==> stream[j].typ !in events
    decreases |stream| - from
  {
    if from == |stream| then None
    else if stream[from].typ in events then Some(from)
    else FirstAwaited(stream, events, from + 1)
  }

  /** What the first awaited event delivers, as written: nil also when the predicate refuses it. */
  function Delivery<D>(pred: Option<D -> bool>, data: D): (r: Option<D>)
    ensures r.Some? <==> pred.Some? && pred.value(data)
    ensures r.Some? ==> r.value == data
  {
    match pred
    case None => None
    case Some(p) => if p(data) then Some(data) else None
  }

  /** The outcome of the handler on a finite event stream, as the code behaves. */
  function WaitOutcome<D>(stream: seq<Event<D>>, events: seq<string>, pred: Option<D -> bool>): (r: WaitResult<D>)
    ensures r.Waiting? <==> forall j :: 0 <= j < |stream| ==> stream[j].typ !in events
    ensures r.Delivered? ==>
      && 1 <= r.consumed <= |stream|
      && stream[r.consumed - 1].typ in events
      && (forall j :: 0 <= j < r.consumed - 1 ==> stream[j].typ !in events)
      && r.value == Delivery(pred, stream[r.consumed - 1].data)
  {
    match FirstAwaited(stream, events, 0)
    case None => Waiting
    case Some(k) => Delivered(k + 1, Delivery(pred, stream[k].data))
  }

  /**
   * The handler loop: ignores events of other types and stops at the first
   * event of an awaited type, whatever its predicate says.
   */
  method HandleEvents<D>(stream: seq<Event<D>>, events: seq<string>, pred: Option<D -> bool>) returns (r: WaitResult<D>)
    ensures r == WaitOutcome(stream, events, pred)
  {
    var i := 0;
    while i < |stream|
      invariant 0 <= i <= |stream|
      invariant FirstAwaited(stream, events, 0) == FirstAwaited(stream, events, i)
    {
      var awaited := StringSliceContains(events, stream[i].typ);
      if awaited {
        var value := None;
        if pred.Some? {
          if pred.value(stream[i].data) {
            value := Some(stream[i].data);
          }
        }
        return Delivered(i + 1, value);
      }
      i := i + 1;
    }
    return Waiting;
  }

  /** The waiting call: the delivered value with no error, or a timeout when none comes. */
  function WaitForEvent<D>(stream: seq<Event<D>>, events: seq<string>, pred: Option<D -> bool>): (r: Result<Option<D>, Error>)
    ensures r.Failure? <==> WaitOutcome(stream, events, pred).Waiting?
    ensures r.Failure? ==> r.error == TimedOut
    ensures r.Success? ==> r.value == WaitOutcome(stream, events, pred).value
  {
    match WaitOutcome(stream, events, pred)
    case Waiting => Failure(TimedOut)
    case Delivered(_, v) => Success(v)
  }

  /** A refused first event ends the wait with nil, and a later satisfying event is never seen. */
  lemma RefusedEventEndsWait()
    ensures WaitOutcome([Event("load", 1), Event("load", 2)], ["load"], Some((d: int) => d == 2)) == Delivered(1, None)
    ensures WaitForEvent([Event("load", 1), Event("load", 2)], ["load"], Some((d: int) => d == 2)) == Success(None)
  {
    var stream := [Event("load", 1), Event("load", 2)];
    assert FirstAwaited(stream, ["load"], 0) == Some(0);
  }

  /** The index of the first awaited event at or after `from` that the predicate accepts. */
  function FirstSatisfying<D>(stream: seq<Event<D>>, events: seq<string>, p: D -> bool, from: nat): (k: Option<nat>)
    requires from <= |stream|
    ensures k.Some? ==> from <= k.value < |stream| && stream[k.value].typ in events && p(stream[k.value].data)
    ensures forall j :: from <= j < |stream| && (k.None? || j < k.value) ==>
      !(stream[j].typ in events && p(stream[j].data))
    decreases |stream| - from
  {
    if from == |stream| then None
    else if stream[from].typ in events && p(stream[from].data) then Some(from)
    else FirstSatisfying(stream, events, p, from + 1)
  }

  /**
   * The wait as intended: with a predicate, events it refuses are skipped
   * like events of other types, so a delivered value always satisfies it.
   */
  function WaitForSatisfyingEvent<D>(stream: seq<Event<D>>, events: seq<string>, pred: Option<D -> bool>): (r: WaitResult<D>)
    ensures pred.None? ==> r == WaitOutcome(stream, events, pred)
    ensures pred.Some? && r.Delivered? ==>
      && 1 <= r.consumed <= |stream|
      && r.value == Some(stream[r.consumed - 1].data)
      && stream[r.consumed - 1].typ in events && pred.value(stream[r.consumed - 1].data)
      && (forall j :: 0 <= j < r.consumed - 1 ==> !(stream[j].typ in events && pred.value(stream[j].data)))
    ensures pred.Some? && r.Waiting? ==>
      forall j :: 0 <= j < |stream| ==> !(stream[j].typ in events && pred.value(stream[j].data))
  {
    match pred
    case None => WaitOutcome(stream, events, pred)
    case Some(p) =>
      match FirstSatisfying(stream, events, p, 0)
      case None => Waiting
      case Some(k) => Delivered(k + 1, Some(stream[k].data))
  }

  /** On the same stream, the intended wait delivers the second event's data. */
  lemma SatisfyingEventDelivered()
    ensures WaitForSatisfyingEvent([Event("load", 1), Event("load", 2)], ["load"], Some((d: int) => d == 2)) == Delivered(2, Some(2))
  {
    var stream := [Event("load", 1), Event("load", 2)];
    assert FirstSatisfying(stream, ["load"], (d: int) => d == 2, 0) == Some(1);
  }

  /** Without a predicate, or when the first awaited event satisfies it, both waits agree. */
  lemma WaitsAgreeWhenFirstSatisfies<D>(stream: seq<Event<D>>, events: seq<string>, pred: Option<D -> bool>)
    requires WaitOutcome(stream, events, pred).Delivered?
    requires pred.Some? ==> pred.value(stream[WaitOutcome(stream, events, pred).consumed - 1].data)
    ensures WaitForSatisfyingEvent(stream, events, pred) == WaitOutcome(stream, events, pred)
  {
    if pred.Some? {
      var k := WaitOutcome(stream, events, pred).consumed - 1;
      var s := FirstSatisfying(stream, events, pred.value, 0);
      assert stream[k].typ in events && pred.value(stream[k].data);
      assert s.Some? && s.value <= k;
      assert s == Some(k);
    }
  }
}
