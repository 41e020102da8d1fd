/** The protocol-facing part of the controller, src/ctl.cpp: which signal it
    raises for a command and how it validates and packs a resize request. */
module Ctl {
  import opened Wrappers
  import opened Native
  import opened Units
  import opened SizeSpec
  import opened Payload

  /** What one run of the controller does. */
  datatype Outcome =
    | RaisedHangup                  // kill(pid, SIGHUP), exit status 0
    | QueuedResize(payload: u32)    // sigqueue(pid, SIGUSR1, payload), exit status 0
    | SizeTooBig                    // nothing sent, exit status 1
    | InvalidSize(error: SpecError) // split_size_spec threw; nothing sent, the exception is not caught
    | NothingSent                   // unknown command: nothing sent, exit status 0

  /** The bound check `(size & SIZE_MASK) != size` on the 64-bit magnitude:
      on an unsigned magnitude it holds exactly above 2^28 - 1. */
  predicate TooBig(size: u64): (r: bool)
    ensures r <==> size > SIZE_MASK
  {
    size % UNIT_SHIFT != size
  }

  /** The dispatch of `main` on the command word: "flush" raises SIGHUP;
      "resize" parses the size specification, rejects a magnitude that does
      not fit 28 bits, and queues SIGUSR1 with the packed payload; any other
      word sends nothing. */
  function CtlMain(command: string, sizeSpec: string): (r: Outcome)
    ensures r == RaisedHangup <==> command == "flush"
    ensures r == NothingSent <==> command != "flush" && command != "resize"
    ensures r.InvalidSize? <==> command == "resize" && SplitSizeSpec(sizeSpec).Err?
    ensures r == SizeTooBig <==>
      command == "resize" && SplitSizeSpec(sizeSpec).Ok? && SplitSizeSpec(sizeSpec).value.0 > SIZE_MASK
    ensures r.QueuedResize? ==>
      && command == "resize" && SplitSizeSpec(sizeSpec).Ok?
      && var (size, unit) := SplitSizeSpec(sizeSpec).value;
         size <= SIZE_MASK && Unpack(r.payload) == (Ordinal(unit), size)
  {
    if command == "flush" then RaisedHangup
    else if command == "resize" then
      match SplitSizeSpec(sizeSpec)
      case Err(e) => InvalidSize(e)
      case Ok((size, unit)) =>
        if TooBig(size) then SizeTooBig
        else
          PackUnpack(unit, size);
          QueuedResize(Pack(unit, size))
    else NothingSent
  }

  /** A resize that passes validation is always queued, with the packed
      payload of the parsed magnitude and unit. */
  lemma {:induction false} ResizeQueued(sizeSpec: string)
    requires SplitSizeSpec(sizeSpec).Ok? && SplitSizeSpec(sizeSpec).value.0 <= SIZE_MASK
    ensures CtlMain("resize", sizeSpec).QueuedResize?
    ensures var (size, unit) := SplitSizeSpec(sizeSpec).value;
      CtlMain("resize", sizeSpec).payload == Pack(unit, size)
  {
    var (size, unit) := SplitSizeSpec(sizeSpec).value;
  }
}
