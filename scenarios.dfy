/** The pieces put together: a command typed at the controller, carried by a
    signal and a record through the command pipe, acted on by the engine;
    and the relay's standard scenarios played on the engine's state machine. */
module Scenarios {
  import opened Wrappers
  import opened Native
  import opened Units
  import opened SizeSpec
  import opened Payload
  import opened Ctl
  import opened Records
  import opened EngineSpec

  /** The signal a controller outcome delivers to the relay: `kill(pid,
      SIGHUP)` for a flush, `sigqueue(pid, SIGUSR1, payload)` for a queued
      resize, whose `sival_int` the listener reads back as the same
      `uint32_t`; the other outcomes send nothing. */
  function Delivered(o: Outcome): (r: Option<Signal>)
    ensures r.Some? <==> o.RaisedHangup? || o.QueuedResize?
    ensures o.RaisedHangup? ==> r == Some(Hangup)
    ensures o.QueuedResize? ==> r == Some(User1(o.payload))
  {
    match o
    case RaisedHangup => Some(Hangup)
    case QueuedResize(p) => Some(User1(p))
    case _ => None
  }

  /** `stream-buffer-ctl <pid> resize <spec>`, when the controller queues a
      signal, ends with the engine having written out everything buffered
      and holding a buffer of exactly the byte count `parse_buffer_size`
      gives for the same spec (the 28-bit bound makes no difference to it). */
  lemma {:induction false} ResizeEndToEnd(s: State, sizeSpec: string, rest: seq<Packet>)
    requires Valid(s) && s.phase == Running
    requires CtlMain("resize", sizeSpec).QueuedResize?
    requires s.channel == EncodeSignal(Delivered(CtlMain("resize", sizeSpec)).value) + rest
    ensures var t := Step(s, CommandReady);
      && t.capacity == ParseBufferSize(sizeSpec).value
      && t.sink == s.sink + s.buffered && t.buffered == []
      && t.channel == rest && t.phase == Running
  {
    var p := CtlMain("resize", sizeSpec).payload;
    assert Delivered(CtlMain("resize", sizeSpec)) == Some(User1(p));
    var (size, unit) := SplitSizeSpec(sizeSpec).value;
    assert Unpack(p) == (Ordinal(unit), size);
    OrdinalRoundTrip(unit);
    User1Resizes(s, p, rest);
  }

  /** `stream-buffer-ctl <pid> flush`, whatever else is on its command line,
      delivers SIGHUP, and its record ends with the engine having written
      out exactly what was buffered, with the capacity unchanged. */
  lemma {:induction false} FlushEndToEnd(s: State, sizeSpec: string, rest: seq<Packet>)
    requires Valid(s) && s.phase == Running
    ensures Delivered(CtlMain("flush", sizeSpec)) == Some(Hangup)
    ensures s.channel == EncodeSignal(Hangup) + rest ==>
      var t := Step(s, CommandReady);
      && t.sink == s.sink + s.buffered && t.buffered == []
      && t.capacity == s.capacity && t.phase == Running
  {
    if s.channel == EncodeSignal(Hangup) + rest {
      HangupFlushes(s, rest);
    }
  }

  /** Capacity 8: a read of 5 bytes is only buffered; `left()` is then 3, so
      the next read returns at most 3 bytes, and 3 fill the buffer and are
      written with the first 5; a further byte stays buffered. */
  lemma {:induction false} FillScenario(a: seq<byte>, b: seq<byte>, c: seq<byte>, channel: seq<Packet>)
    requires |a| == 5 && |b| == 3 && |c| == 1
    ensures var evs := [SourceReady(Bytes(a)), SourceReady(Bytes(b)), SourceReady(Bytes(c))];
      && Feasible(Init(8, channel), evs)
      && Run(Init(8, channel), evs[..1]).sink == []
      && Run(Init(8, channel), evs[..1]).buffered == a
      && Run(Init(8, channel), evs).sink == a + b
      && Run(Init(8, channel), evs).buffered == c
      && Run(Init(8, channel), evs).phase == Running
  {
    var s0 := Init(8, channel);
    var evs := [SourceReady(Bytes(a)), SourceReady(Bytes(b)), SourceReady(Bytes(c))];
    PartialReadIsBuffered(s0, a);
    var s1 := Step(s0, evs[0]);
    FullBufferIsFlushed(s1, b);
    var s2 := Step(s1, evs[1]);
    PartialReadIsBuffered(s2, c);
    var s3 := Step(s2, evs[2]);
    assert evs[1..][1..] == evs[2..] && evs[2..][1..] == [];
    assert Feasible(s3, []) && Run(s3, []) == s3;
    assert Run(s2, evs[2..]) == s3;
    assert Run(s1, evs[1..]) == s3;
    assert evs[..1][1..] == [];
    assert Run(s0, evs[..1]) == s1;
  }

  /** Capacity 8 with 3 bytes buffered: SIGHUP's record writes exactly those
      3 bytes and leaves the buffer empty at capacity 8. */
  lemma FlushScenario(d: seq<byte>, sink: seq<byte>, rest: seq<Packet>)
    requires |d| == 3
    ensures var t := Step(State(8, d, sink, EncodeSignal(Hangup) + rest, Running), CommandReady);
      t.sink == sink + d && t.buffered == [] && t.capacity == 8 && t.phase == Running
  {
    HangupFlushes(State(8, d, sink, EncodeSignal(Hangup) + rest, Running), rest);
  }

  /** `stream-buffer-ctl <pid> resize 16` queues the payload of 16 B, and
      "16" is 16 bytes. */
  lemma {:induction false} Resize16Queued()
    ensures CtlMain("resize", "16") == QueuedResize(Pack(B, 16))
    ensures ParseBufferSize("16") == Ok(16)
  {
    assert ToDecimal(16) == "16";
    SplitDecimal(16);
    ResizeQueued("16");
  }

  /** With 3 bytes buffered, a resize to "16" (16 B) writes the 3 bytes first
      and then leaves an empty buffer of capacity 16. */
  lemma {:induction false} ResizeScenario(d: seq<byte>, sink: seq<byte>, rest: seq<Packet>)
    requires |d| == 3
    ensures var t := Step(State(8, d, sink, EncodeSignal(User1(Pack(B, 16))) + rest, Running), CommandReady);
      t.sink == sink + d && t.buffered == [] && t.capacity == 16 && t.phase == Running
  {
    Resize16Queued();
    ResizeEndToEnd(State(8, d, sink, EncodeSignal(User1(Pack(B, 16))) + rest, Running), "16", rest);
  }

  /** End of stream with 2 bytes buffered: they are written once and the
      engine stops; no later event writes anything. */
  lemma {:induction false} EofScenario(d: seq<byte>, sink: seq<byte>, channel: seq<Packet>, later: seq<Event>)
    requires |d| == 2
    ensures var s := State(8, d, sink, channel, Running);
      && Feasible(s, [SourceReady(Bytes([]))] + later)
      && Run(s, [SourceReady(Bytes([]))] + later).sink == sink + d
      && Run(s, [SourceReady(Bytes([]))] + later).phase == SourceClosed
  {
    var s := State(8, d, sink, channel, Running);
    var evs := [SourceReady(Bytes([]))] + later;
    SourceEndFlushes(s, Bytes([]));
    var t := Step(s, evs[0]);
    assert evs[1..] == later;
    StoppedIsFinal(t, later);
  }
}
