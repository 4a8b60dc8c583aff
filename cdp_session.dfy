/**
 * The protocol session the keyboard dispatches through, reduced to an
 * append-only log of the commands dispatched. Whether the remote end accepts
 * a command is an oracle: `accepts(n)` is the outcome of the n-th dispatch.
 */
module CdpSession {

  /** The input commands the keyboard issues, with their protocol fields. */
  datatype Command =
    | KeyDown(modifiers: bv8, key: string, windowsVirtualKeyCode: int, code: string,
              location: int, isKeypad: bool, text: string, unmodifiedText: string, autoRepeat: bool)
    | RawKeyDown(modifiers: bv8, key: string, windowsVirtualKeyCode: int, code: string,
                 location: int, isKeypad: bool, text: string, unmodifiedText: string, autoRepeat: bool)
    | KeyUp(modifiers: bv8, key: string, windowsVirtualKeyCode: int, code: string, location: int)
    | InsertText(text: string)

  /** One dispatched command and whether the session accepted it. */
  datatype Dispatch = Dispatch(command: Command, ok: bool)

  /** Appends `c` to the log with the outcome the oracle gives its position. */
  function Send(accepts: nat -> bool, log: seq<Dispatch>, c: Command): (r: seq<Dispatch>)
    ensures |r| == |log| + 1 && r[..|log|] == log
    ensures r[|log|] == Dispatch(c, accepts(|log|))
  {
    log + [Dispatch(c, accepts(|log|))]
  }

  class Session {
    var log: seq<Dispatch>
    const accepts: nat -> bool

    constructor (accepts: nat -> bool)
      ensures log == [] && this.accepts == accepts
    {
      log := [];
      this.accepts := accepts;
    }

    /** Dispatches one command; the log only ever grows. */
    method Execute(c: Command) returns (ok: bool)
      modifies this
      ensures log == Send(accepts, old(log), c)
      ensures ok == accepts(|old(log)|)
    {
      ok := accepts(|log|);
      log := log + [Dispatch(c, ok)];
    }
  }
}
