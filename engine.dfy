/** The engine thread of src/main.cpp as imperative code over a `Buffer`:
    `stream_data`, the command `switch` of `buffer_loop`, and the loop itself
    with its shutdown pass. The sink (the output descriptor) is the sequence
    of bytes written so far; each method is proved to do exactly what
    `EngineSpec.Step` says for the event it handles. */
module Engine {
  import opened Wrappers
  import opened Native
  import opened Units
  import opened Records
  import opened StreamBuffer
  import S = EngineSpec

  /** The abstract engine state an imperative configuration stands for. */
  ghost function Abstract(b: Buffer, sink: seq<byte>, channel: seq<Packet>, phase: S.Phase): S.State
    reads b, b.storage
    requires b.Valid()
  {
    S.State(b.Capacity(), b.Contents(), sink, channel, phase)
  }

  /** The kernel's side of `read(from, buffer.head(), buffer.left())`: the
      bytes read land at `head()`, and the buffered bytes before it stay. */
  method ReadInto(buffer: Buffer, got: seq<byte>)
    requires buffer.Valid() && |got| <= buffer.Left()
    modifies buffer.storage
    ensures buffer.Valid() && buffer.Contents() == old(buffer.Contents())
    ensures buffer.storage[buffer.level..buffer.level + |got|] == got
  {
    var h := buffer.Head();
    forall i | 0 <= i < |got| {
      buffer.storage[h + i] := got[i];
    }
    assert buffer.storage[h..h + |got|] == got;
  }

  /** `stream_data` in non-line mode. The read puts `r`'s bytes at `head()`;
      its outcome decides between flushing on end of stream or error, and
      growing then flushing a full buffer. */
  method StreamData(buffer: Buffer, r: S.ReadResult, sink: seq<byte>) returns (res: int, sink': seq<byte>)
    requires buffer.Valid()
    requires r.Bytes? ==> |r.data| <= buffer.Left()
    modifies buffer, buffer.storage
    ensures buffer.Valid() && buffer.Capacity() == old(buffer.Capacity())
    ensures buffer.storage == old(buffer.storage) || fresh(buffer.storage)
    ensures var x := S.StreamData(old(buffer.Capacity()), old(buffer.Contents()), sink, r);
      buffer.Contents() == x.buffered && sink' == x.sink && res == x.res
  {
    var got := S.Received(r);
    ReadInto(buffer, got);
    var readSize := if r.Failed? then -1 else |got|;

    if readSize == 0 {
      var drained := buffer.Drain();
      return 0, sink + drained;
    }
    if readSize <= 0 {
      var drained := buffer.Drain();
      return -1, sink + drained;
    }

    buffer.Grow(readSize);
    if buffer.Full() {
      var drained := buffer.Drain();
      return readSize, sink + drained;
    }
    return readSize, sink;
  }

  /** The command branch of `buffer_loop`: read and decode one record, then
      Flush drains and writes; Resize drains and writes, and only then looks
      the unit up and resizes to magnitude times unit size in 64 bits, or,
      when the lookup throws, reports that the process is aborting. Nop and
      unknown tags do nothing. */
  method HandleCommand(buffer: Buffer, channel: seq<Packet>, sink: seq<byte>)
    returns (channel': seq<Packet>, sink': seq<byte>, aborted: bool)
    requires buffer.Valid()
    modifies buffer
    ensures buffer.Valid()
    ensures buffer.storage == old(buffer.storage) || fresh(buffer.storage)
    ensures var t := S.Step(S.State(old(buffer.Capacity()), old(buffer.Contents()), sink, channel, S.Running), S.CommandReady);
      && buffer.Capacity() == t.capacity && buffer.Contents() == t.buffered
      && sink' == t.sink && channel' == t.channel
      && (aborted <==> t.phase == S.Aborted) && (!aborted ==> t.phase == S.Running)
  {
    var (command, rest) := DecodeCommand(channel);
    channel' := rest;
    aborted := false;
    match command {
      case Flush =>
        var drained := buffer.Drain();
        sink' := sink + drained;
      case Resize(unit, size) =>
        var drained := buffer.Drain();
        sink' := sink + drained;
        match FromOrdinal(unit) {
          case Some(u) =>
            var oldCapacity := buffer.Resize((size * UnitSize(u)) % U64_LIMIT);
          case None =>
            aborted := true;
        }
      case Nop =>
        sink' := sink;
      case Unknown(_) =>
        sink' := sink;
    }
  }

  /** One pass of the body of `buffer_loop` for one ready event, on a running
      engine: whatever it does to the buffer, the sink and the pipe, and the
      phase it leaves the engine in, are exactly `EngineSpec.Step`. */
  method HandleEvent(buffer: Buffer, e: S.Event, sink: seq<byte>, channel: seq<Packet>)
    returns (sink': seq<byte>, channel': seq<Packet>, phase: S.Phase)
    requires buffer.Valid() && S.Admissible(Abstract(buffer, sink, channel, S.Running), e)
    modifies buffer, buffer.storage
    ensures buffer.Valid()
    ensures buffer.storage == old(buffer.storage) || fresh(buffer.storage)
    ensures Abstract(buffer, sink', channel', phase) == S.Step(old(Abstract(buffer, sink, channel, S.Running)), e)
  {
    sink', channel', phase := sink, channel, S.Running;
    match e {
      case SourceReady(r) =>
        var res;
        res, sink' := StreamData(buffer, r, sink);
        if res == 0 {
          phase := S.SourceClosed;
        } else if res < 0 {
          phase := S.SourceFailed;
        }
      case CommandReady =>
        var aborted;
        channel', sink', aborted := HandleCommand(buffer, channel, sink);
        if aborted {
          phase := S.Aborted;
        }
      case WaitFailed =>
      case NoneReady =>
      case Shutdown(finalRead) =>
        match finalRead {
          case Some(r) =>
            var ignored;
            ignored, sink' := StreamData(buffer, r, sink);
          case None =>
        }
        var drained := buffer.Drain();
        sink' := sink' + drained;
        phase := S.ShutDown;
    }
  }

  /** `buffer_loop` from the allocation of the buffer on: the events are
      handled one by one while the engine runs; the sentinel is the
      `Shutdown` event, after which one last read and a final drain happen.
      The sink and the way the loop ended are those of `EngineSpec.Run`, so
      once it has stopped every byte read has been written, in order. */
  method BufferLoop(initialSize: nat, channel: seq<Packet>, events: seq<S.Event>)
    returns (sink: seq<byte>, phase: S.Phase)
    requires S.Feasible(S.Init(initialSize, channel), events)
    ensures sink == S.Run(S.Init(initialSize, channel), events).sink
    ensures phase == S.Run(S.Init(initialSize, channel), events).phase
    ensures phase != S.Running ==> sink == S.BytesRead(S.Init(initialSize, channel), events)
  {
    var buffer := new Buffer(initialSize);
    var ch := channel;
    sink := [];
    phase := S.Running;
    var i := 0;
    while i < |events| && phase == S.Running
      invariant 0 <= i <= |events|
      invariant fresh(buffer) && fresh(buffer.storage) && buffer.Valid()
      invariant S.Valid(Abstract(buffer, sink, ch, phase))
      invariant S.Feasible(Abstract(buffer, sink, ch, phase), events[i..])
      invariant S.Run(Abstract(buffer, sink, ch, phase), events[i..]) == S.Run(S.Init(initialSize, channel), events)
      decreases |events| - i
    {
      assert events[i..][0] == events[i] && events[i..][1..] == events[i + 1..];
      sink, ch, phase := HandleEvent(buffer, events[i], sink, ch);
      i := i + 1;
    }
    ghost var t := Abstract(buffer, sink, ch, phase);
    if i < |events| {
      S.StoppedIsFinal(t, events[i..]);
    }
    assert S.Run(t, events[i..]) == t;
    if phase != S.Running {
      S.StoppedEngineDeliveredAll(initialSize, channel, events);
    }
  }
}
