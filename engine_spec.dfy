/** The stream engine of src/main.cpp (`stream_data` and the event handling
    of `buffer_loop`, in non-line mode) as a state machine over the events
    the engine reacts to. The imperative engine in module Engine is proved
    to follow it step by step; the lemmas here say what it guarantees. */
module EngineSpec {
  import opened Wrappers
  import opened Native
  import opened Units
  import opened Records

  /** What one `read(from, buffer.head(), buffer.left())` returns: some bytes
      (none at all is end of stream, result 0) or an error (result -1). */
  datatype ReadResult = Bytes(data: seq<byte>) | Failed

  /** One thing the engine's loop reacts to. */
  datatype Event =
    | SourceReady(read: ReadResult)        // epoll reports the data source
    | CommandReady                         // epoll reports the command pipe
    | WaitFailed                           // epoll_wait returned -1
    | NoneReady                            // epoll_wait returned 0
    | Shutdown(finalRead: Option<ReadResult>)
      // the loop sees the sentinel set; `finalRead` is the last non-blocking
      // read, None when making the source non-blocking failed

  datatype Phase =
    | Running
    | SourceClosed   // stream_data returned 0: `buffer_loop` returned
    | SourceFailed   // stream_data returned -1: `buffer_loop` returned
    | Aborted        // UNIT_SIZES.at threw in a Resize: the process terminates
    | ShutDown       // the loop ended on the sentinel and did its final drain

  /** The engine's state: the buffer's capacity and buffered bytes, what has
      been written to the sink, what is still unread in the command pipe. */
  datatype State = State(
    capacity: nat, buffered: seq<byte>, sink: seq<byte>, channel: seq<Packet>, phase: Phase)

  /** The buffer's invariant, and: once the engine has stopped, nothing is
      left in the buffer. */
  predicate Valid(s: State)
  {
    |s.buffered| <= s.capacity && (s.phase != Running ==> s.buffered == [])
  }

  /** `buffer_loop` starts with an empty buffer of the parsed size. */
  function Init(capacity: nat, channel: seq<Packet>): (s: State)
    ensures Valid(s) && s.phase == Running && s.buffered == [] && s.sink == []
  {
    State(capacity, [], [], channel, Running)
  }

  /** The kernel's promise: a read never returns more than it was asked for,
      which is `buffer.left()`. */
  predicate FitsRead(s: State, r: ReadResult)
    requires Valid(s)
  {
    r.Bytes? ==> |r.data| <= s.capacity - |s.buffered|
  }

  predicate Admissible(s: State, e: Event)
    requires Valid(s)
  {
    s.phase == Running ==>
      match e
      case SourceReady(r) => FitsRead(s, r)
      case Shutdown(Some(r)) => FitsRead(s, r)
      case _ => true
  }

  /** The bytes a read hands to the engine. */
  function Received(r: ReadResult): seq<byte>
  {
    match r
    case Bytes(d) => d
    case Failed => []
  }

  datatype Streamed = Streamed(buffered: seq<byte>, sink: seq<byte>, res: int)

  /** `stream_data` without line mode: end of stream and errors flush what is
      buffered and return 0 and -1; otherwise the bytes are buffered, and a
      buffer that is now full is flushed whole. */
  function StreamData(capacity: nat, buffered: seq<byte>, sink: seq<byte>, r: ReadResult): (t: Streamed)
    requires |buffered| <= capacity
    requires r.Bytes? ==> |buffered| + |r.data| <= capacity
    ensures t.sink + t.buffered == sink + buffered + Received(r)
    ensures |t.buffered| <= capacity && sink <= t.sink
    ensures t.res == (if r.Failed? then -1 else |r.data|)
    ensures t.res <= 0 ==> t.buffered == []
    ensures t.res > 0 ==> |t.buffered| < capacity
  {
    match r
    case Failed => Streamed([], sink + buffered, -1)
    case Bytes(d) =>
      if |d| == 0 then Streamed([], sink + buffered, 0)
      else if |buffered| + |d| == capacity then Streamed([], sink + (buffered + d), |d|)
      else Streamed(buffered + d, sink, |d|)
  }

  /** Flush: drain the buffer and write what was drained to the sink. */
  function FlushBuffer(s: State): (t: State)
    ensures t.buffered == [] && t.sink == s.sink + s.buffered
    ensures t.capacity == s.capacity && t.channel == s.channel && t.phase == s.phase
  {
    s.(buffered := [], sink := s.sink + s.buffered)
  }

  /** The `switch` on a decoded command. Resize drains and flushes first, and
      only then looks the unit up; the new capacity is computed in 64 bits. */
  function ApplyCommand(s: State, cmd: Command): (t: State)
    ensures t.channel == s.channel
    ensures cmd.Nop? || cmd.Unknown? ==> t == s
    ensures cmd.Flush? || cmd.Resize? ==> t.buffered == [] && t.sink == s.sink + s.buffered
    ensures cmd.Flush? ==> t.capacity == s.capacity && t.phase == s.phase
    ensures cmd.Resize? && FromOrdinal(cmd.unit).None? ==> t.capacity == s.capacity && t.phase == Aborted
    ensures cmd.Resize? && FromOrdinal(cmd.unit).Some? ==>
      t.phase == s.phase && t.capacity == (cmd.size * UnitSize(FromOrdinal(cmd.unit).value)) % U64_LIMIT
  {
    match cmd
    case Flush => FlushBuffer(s)
    case Resize(unit, size) =>
      var t := FlushBuffer(s);
      match FromOrdinal(unit) {
        case Some(u) => t.(capacity := (size * UnitSize(u)) % U64_LIMIT)
        case None => t.(phase := Aborted)
      }
    case Nop => s
    case Unknown(_) => s
  }

  /** One event. A stopped engine reacts to nothing. */
  function Step(s: State, e: Event): (t: State)
    requires Valid(s) && Admissible(s, e)
    ensures Valid(t)
  {
    if s.phase != Running then s
    else
      match e
      case SourceReady(r) =>
        var x := StreamData(s.capacity, s.buffered, s.sink, r);
        s.(buffered := x.buffered, sink := x.sink,
           phase := if x.res == 0 then SourceClosed else if x.res < 0 then SourceFailed else Running)
      case CommandReady =>
        var (cmd, rest) := DecodeCommand(s.channel);
        ApplyCommand(s.(channel := rest), cmd)
      case WaitFailed => s
      case NoneReady => s
      case Shutdown(fr) =>
        var t := match fr
          case None => s
          case Some(r) =>
            var x := StreamData(s.capacity, s.buffered, s.sink, r);
            s.(buffered := x.buffered, sink := x.sink);
        FlushBuffer(t).(phase := ShutDown)
  }

  /** The bytes the engine takes from the source during one event. */
  function Accepted(s: State, e: Event): seq<byte>
  {
    if s.phase != Running then []
    else
      match e
      case SourceReady(r) => Received(r)
      case Shutdown(Some(r)) => Received(r)
      case _ => []
  }

  /** Every read in the run respects the kernel's promise. */
  predicate Feasible(s: State, evs: seq<Event>)
    requires Valid(s)
    decreases |evs|
  {
    evs == [] || (Admissible(s, evs[0]) && Feasible(Step(s, evs[0]), evs[1..]))
  }

  /** The state after a run of events. */
  function Run(s: State, evs: seq<Event>): (t: State)
    requires Valid(s) && Feasible(s, evs)
    ensures Valid(t)
    decreases |evs|
  {
    if evs == [] then s else Run(Step(s, evs[0]), evs[1..])
  }

  /** All bytes read from the source during a run. */
  function BytesRead(s: State, evs: seq<Event>): seq<byte>
    requires Valid(s) && Feasible(s, evs)
    decreases |evs|
  {
    if evs == [] then [] else Accepted(s, evs[0]) + BytesRead(Step(s, evs[0]), evs[1..])
  }

  /** One event loses no byte and invents none: the sink followed by the
      buffer grows by exactly the bytes read. */
  lemma StepConserves(s: State, e: Event)
    requires Valid(s) && Admissible(s, e)
    ensures Step(s, e).sink + Step(s, e).buffered == s.sink + s.buffered + Accepted(s, e)
    ensures s.sink <= Step(s, e).sink
  {
    if s.phase == Running {
      match e {
        case Shutdown(Some(r)) =>
          var x := StreamData(s.capacity, s.buffered, s.sink, r);
          assert x.sink + x.buffered + [] == s.sink + s.buffered + Accepted(s, e);
        case _ =>
      }
    }
  }

  /** A run is its first step followed by the run of the rest. */
  lemma RunUnfold(s: State, evs: seq<Event>)
    requires Valid(s) && Feasible(s, evs) && evs != []
    ensures Admissible(s, evs[0]) && Feasible(Step(s, evs[0]), evs[1..])
    ensures Run(s, evs) == Run(Step(s, evs[0]), evs[1..])
    ensures BytesRead(s, evs) == Accepted(s, evs[0]) + BytesRead(Step(s, evs[0]), evs[1..])
  {
  }

  /** No data loss: after any run of events, what the sink received followed
      by what is still buffered is exactly everything read, with the sink
      only ever appended to. */
  lemma {:induction false} NoDataLoss(s: State, evs: seq<Event>)
    requires Valid(s) && Feasible(s, evs)
    ensures Run(s, evs).sink + Run(s, evs).buffered == s.sink + s.buffered + BytesRead(s, evs)
    ensures s.sink <= Run(s, evs).sink
    decreases |evs|
  {
    if evs != [] {
      RunUnfold(s, evs);
      var t := Step(s, evs[0]);
      var a := Accepted(s, evs[0]);
      var rest := BytesRead(t, evs[1..]);
      StepConserves(s, evs[0]);
      NoDataLoss(t, evs[1..]);
      assert (s.sink + s.buffered + a) + rest == s.sink + s.buffered + (a + rest);
    }
  }

  /** Once the engine has stopped, for whatever reason, the sink holds every
      byte that was ever read, in order. */
  lemma {:induction false} StoppedEngineDeliveredAll(capacity: nat, channel: seq<Packet>, evs: seq<Event>)
    requires Feasible(Init(capacity, channel), evs)
    requires Run(Init(capacity, channel), evs).phase != Running
    ensures Run(Init(capacity, channel), evs).sink == BytesRead(Init(capacity, channel), evs)
  {
    var s := Init(capacity, channel);
    NoDataLoss(s, evs);
    var t := Run(s, evs);
    assert t.buffered == [];
    assert t.sink + t.buffered == t.sink;
    assert s.sink + s.buffered + BytesRead(s, evs) == BytesRead(s, evs);
  }

  /** A stopped engine stays stopped and changes nothing more. */
  lemma {:induction false} StoppedIsFinal(s: State, evs: seq<Event>)
    requires Valid(s) && s.phase != Running
    ensures Feasible(s, evs) && Run(s, evs) == s && BytesRead(s, evs) == []
    decreases |evs|
  {
    if evs != [] {
      StoppedIsFinal(s, evs[1..]);
    }
  }

  /** A read that fills the buffer makes the engine write exactly `capacity`
      bytes, the old contents then the new bytes, and leaves it empty. */
  lemma FullBufferIsFlushed(s: State, d: seq<byte>)
    requires Valid(s) && s.phase == Running
    requires 0 < |d| && |s.buffered| + |d| == s.capacity
    ensures var t := Step(s, SourceReady(Bytes(d)));
      && t.sink == s.sink + s.buffered + d && |t.sink| == |s.sink| + s.capacity
      && t.buffered == [] && t.capacity == s.capacity && t.phase == Running
  {
  }

  /** A read that leaves room only buffers its bytes; nothing is written. */
  lemma PartialReadIsBuffered(s: State, d: seq<byte>)
    requires Valid(s) && s.phase == Running
    requires 0 < |d| && |s.buffered| + |d| < s.capacity
    ensures var t := Step(s, SourceReady(Bytes(d)));
      t.sink == s.sink && t.buffered == s.buffered + d && t.phase == Running
  {
  }

  /** End of stream and a read error both write out everything buffered and
      stop the engine, with result 0 and -1 respectively. */
  lemma SourceEndFlushes(s: State, r: ReadResult)
    requires Valid(s) && s.phase == Running
    requires r == Bytes([]) || r == Failed
    ensures var t := Step(s, SourceReady(r));
      && t.sink == s.sink + s.buffered && t.buffered == []
      && t.phase == (if r.Failed? then SourceFailed else SourceClosed)
  {
  }

  /** A failed or empty `epoll_wait` is retried: the state does not change. */
  lemma WaitOutcomesIgnored(s: State)
    requires Valid(s)
    ensures Step(s, WaitFailed) == s && Step(s, NoneReady) == s
  {
  }

  /** The record SIGHUP produces makes the engine write exactly what was
      buffered; the capacity stays. */
  lemma {:induction false} HangupFlushes(s: State, rest: seq<Packet>)
    requires Valid(s) && s.phase == Running
    requires s.channel == EncodeSignal(Hangup) + rest
    ensures var t := Step(s, CommandReady);
      && t.sink == s.sink + s.buffered && t.buffered == []
      && t.capacity == s.capacity && t.channel == rest && t.phase == Running
  {
    DecodeEncode(Hangup, rest);
  }

  /** The record SIGUSR1 produces makes the engine write out what was
      buffered first and only then take the new capacity, magnitude times
      the unit's size in 64-bit arithmetic. */
  lemma {:induction false} User1Resizes(s: State, p: u32, rest: seq<Packet>)
    requires Valid(s) && s.phase == Running
    requires s.channel == EncodeSignal(User1(p)) + rest
    requires FromOrdinal(p / 0x1000_0000).Some?
    ensures var t := Step(s, CommandReady);
      && t.sink == s.sink + s.buffered && t.buffered == []
      && t.capacity == ((p % 0x1000_0000) * UnitSize(FromOrdinal(p / 0x1000_0000).value)) % U64_LIMIT
      && t.channel == rest && t.phase == Running
  {
    DecodeEncode(User1(p), rest);
  }

  /** A payload whose unit bits name no unit still flushes (the drain comes
      before the lookup), then the lookup throws and the engine is gone. */
  lemma {:induction false} User1BadUnitAborts(s: State, p: u32, rest: seq<Packet>)
    requires Valid(s) && s.phase == Running
    requires s.channel == EncodeSignal(User1(p)) + rest
    requires FromOrdinal(p / 0x1000_0000).None?
    ensures var t := Step(s, CommandReady);
      && t.sink == s.sink + s.buffered && t.buffered == []
      && t.capacity == s.capacity && t.phase == Aborted
  {
    DecodeEncode(User1(p), rest);
  }

  /** The `Nop` record written with the sentinel, and any unknown tag, only
      consume their packet. */
  lemma {:induction false} NopChangesNothing(s: State, tag: byte, rest: seq<Packet>)
    requires Valid(s) && s.phase == Running
    requires tag != TAG_FLUSH && tag != TAG_RESIZE
    requires s.channel == [[tag]] + rest
    ensures Step(s, CommandReady) == s.(channel := rest)
  {
    assert s.channel[1..] == rest;
  }

  /** With zero capacity (zero sizes are not rejected), `left()` is 0, the
      next read returns 0 and the engine stops as if the source had closed. */
  lemma ZeroCapacityStopsAtNextRead(s: State, r: ReadResult)
    requires Valid(s) && s.phase == Running && s.capacity == 0
    requires FitsRead(s, r)
    ensures Step(s, SourceReady(r)).phase != Running
  {
  }

  /** The shutdown pass ends with an empty buffer and every byte read,
      including those of the last non-blocking read, written out. */
  lemma ShutdownDrains(s: State, fr: Option<ReadResult>)
    requires Valid(s) && s.phase == Running && Admissible(s, Shutdown(fr))
    ensures var t := Step(s, Shutdown(fr));
      && t.phase == ShutDown && t.buffered == []
      && t.sink == s.sink + s.buffered + Accepted(s, Shutdown(fr))
  {
    StepConserves(s, Shutdown(fr));
    var t := Step(s, Shutdown(fr));
    assert t.sink + t.buffered == t.sink;
  }
}
