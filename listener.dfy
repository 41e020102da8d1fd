/** The signal listener, `receive_commands` in src/main.cpp: it waits for one
    of SIGHUP, SIGINT, SIGTERM, SIGPIPE, SIGQUIT and SIGUSR1 at a time and
    writes the matching command record to the command pipe, until a signal
    other than SIGHUP or SIGUSR1 sets the shutdown sentinel. */
module Listener {
  import opened Native
  import opened Payload
  import opened Records

  /** What one `sigwaitinfo` call returns. */
  datatype Wake =
    | Caught(sig: Signal)
    | ReturnedZero   // result 0
    | WaitError      // result -1 (interrupted wait)

  /** Some wake sets the sentinel. */
  predicate Stops(ws: seq<Wake>)
  {
    exists i :: 0 <= i < |ws| && ws[i].Caught? && EndsListener(ws[i].sig)
  }

  /** The packets the listener writes for a run of wakes: a 0 or -1 result
      writes nothing and the loop goes round again; the first signal that
      sets the sentinel is the last one handled. */
  function Listen(ws: seq<Wake>): (r: seq<Packet>)
    ensures |r| <= 2 * |ws|
    ensures r != [] ==> |r[0]| == 1
    decreases |ws|
  {
    if ws == [] then []
    else
      match ws[0]
      case Caught(sig) => EncodeSignal(sig) + (if EndsListener(sig) then [] else Listen(ws[1..]))
      case _ => Listen(ws[1..])
  }

  /** The commands those wakes stand for, in the order the signals arrived. */
  function Commands(ws: seq<Wake>): seq<Command>
    decreases |ws|
  {
    if ws == [] then []
    else
      match ws[0]
      case Caught(sig) => [CommandOf(sig)] + (if EndsListener(sig) then [] else Commands(ws[1..]))
      case _ => Commands(ws[1..])
  }

  /** The engine's view of a pipe: every record decoded in turn. */
  function DecodeAll(channel: seq<Packet>): seq<Command>
    decreases |channel|
  {
    if channel == [] then []
    else
      var (c, rest) := DecodeCommand(channel);
      [c] + DecodeAll(rest)
  }

  /** The pipe is an ordered mailbox: decoding everything the listener wrote
      gives back exactly the commands of the signals it caught, in order,
      with nothing lost, added or reordered. */
  lemma {:induction false} ChannelRoundTrip(ws: seq<Wake>)
    ensures DecodeAll(Listen(ws)) == Commands(ws)
    decreases |ws|
  {
    if ws != [] {
      match ws[0]
      case Caught(sig) =>
        if EndsListener(sig) {
          assert Listen(ws) == EncodeSignal(sig) + [];
          DecodeEncode(sig, []);
        } else {
          DecodeEncode(sig, Listen(ws[1..]));
          ChannelRoundTrip(ws[1..]);
        }
      case _ =>
        ChannelRoundTrip(ws[1..]);
    }
  }

  /** `receive_commands` as a loop over the wakes it sees. It returns what it
      wrote to the pipe and whether it set the sentinel. */
  method ReceiveCommands(wakes: seq<Wake>) returns (channel: seq<Packet>, sentinel: bool)
    ensures channel == Listen(wakes)
    ensures sentinel <==> Stops(wakes)
  {
    channel, sentinel := [], false;
    var i := 0;
    while i < |wakes| && !sentinel
      invariant 0 <= i <= |wakes|
      invariant !sentinel ==> channel + Listen(wakes[i..]) == Listen(wakes)
      invariant sentinel ==> channel == Listen(wakes)
      invariant sentinel <==> Stops(wakes[..i])
    {
      assert wakes[i..][1..] == wakes[i + 1..];
      assert wakes[..i + 1] == wakes[..i] + [wakes[i]];
      match wakes[i] {
        case Caught(sig) =>
          if sig.Hangup? {
            channel := channel + [[TAG_FLUSH]];
          } else if sig.User1? {
            var (unit, size) := Unpack(sig.payload);
            channel := channel + [[TAG_RESIZE]];
            channel := channel + [[unit] + LittleEndian(size)];
          } else {
            sentinel := true;
            channel := channel + [[TAG_NOP]];
          }
        case ReturnedZero =>
        case WaitError =>
      }
      i := i + 1;
    }
    assert !sentinel ==> wakes[..i] == wakes && wakes[i..] == [];
  }
}
