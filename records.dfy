/** The command records that travel from the signal listener to the stream
    engine over the command pipe (src/main.cpp). The pipe is opened with
    `O_DIRECT`, so it carries packets: each `write` is one packet and each
    `read` takes one whole packet, keeping at most as many bytes as it asked
    for. */
module Records {
  import opened Native
  import opened Payload

  type Packet = seq<byte>

  // `enum class Commands : uint8_t`.
  const TAG_NOP: byte := 0
  const TAG_FLUSH: byte := 1
  const TAG_RESIZE: byte := 2

  /** What the engine makes of one record. */
  datatype Command =
    | Nop
    | Flush
    | Resize(unit: byte, size: u32)   // the unit byte is not checked until the engine looks it up
    | Unknown(tag: byte)

  /** `memcpy` of a `uint32_t` into four bytes, least significant first (the
      byte order of the target; both ends run in the same process). */
  function LittleEndian(x: u32): (b: seq<byte>)
    ensures |b| == 4
  {
    var q1 := x / 0x100;
    var q2 := q1 / 0x100;
    [x % 0x100, q1 % 0x100, q2 % 0x100, q2 / 0x100]
  }

  /** Dividing `lo + 256 * hi` by 256 separates its two parts again. */
  lemma SplitByte(lo: int, hi: int)
    requires 0 <= lo < 0x100 && 0 <= hi
    ensures (lo + 0x100 * hi) % 0x100 == lo && (lo + 0x100 * hi) / 0x100 == hi
  {
  }

  /** `memcpy` of four bytes back into a `uint32_t`. */
  function FromLittleEndian(b: seq<byte>): (x: u32)
    requires |b| == 4
    ensures LittleEndian(x) == b
  {
    var b0, b1, b2, b3: int := b[0], b[1], b[2], b[3];
    var q2 := b2 + 0x100 * b3;
    var q1 := b1 + 0x100 * q2;
    var x := b0 + 0x100 * q1;
    SplitByte(b2, b3);
    SplitByte(b1, q2);
    SplitByte(b0, q1);
    x
  }

  /** The byte order round trip the engine relies on. */
  lemma LittleEndianRoundTrip(x: u32)
    ensures FromLittleEndian(LittleEndian(x)) == x
  {
    var q1 := x / 0x100;
    var q2 := q1 / 0x100;
    assert x == x % 0x100 + 0x100 * q1;
    assert q1 == q1 % 0x100 + 0x100 * q2;
    assert q2 == q2 % 0x100 + 0x100 * (q2 / 0x100);
  }

  /** `read(commands_fd, buf, n)`: the next packet, cut to `n` bytes; nothing
      when the pipe holds no packet. */
  function ReadPacket(channel: seq<Packet>, n: nat): (r: (seq<byte>, seq<Packet>))
    ensures |r.0| <= n
    ensures channel == [] ==> r == ([], [])
    ensures channel != [] ==> r.1 == channel[1..] && r.0 <= channel[0]
    ensures channel != [] ==> r.0 == channel[0][..if |channel[0]| <= n then |channel[0]| else n]
  {
    if channel == [] then ([], [])
    else if |channel[0]| <= n then
      assert channel[0][..|channel[0]|] == channel[0];
      (channel[0], channel[1..])
    else (channel[0][..n], channel[1..])
  }

  /** `read(commands_fd, data.begin(), 5)` into a zero-initialised
      `std::array<uint8_t, 5>`: the bytes read, then zeros. */
  function ReadBody(channel: seq<Packet>): (r: (seq<byte>, seq<Packet>))
    ensures |r.0| == 5
    ensures r.1 == if channel == [] then [] else channel[1..]
    ensures channel != [] && |channel[0]| >= 5 ==> r.0 == channel[0][..5]
    ensures channel != [] && |channel[0]| < 5 ==>
      r.0[..|channel[0]|] == channel[0] && forall i :: |channel[0]| <= i < 5 ==> r.0[i] == 0
    ensures channel == [] ==> forall i :: 0 <= i < 5 ==> r.0[i] == 0
  {
    var (body, rest) := ReadPacket(channel, 5);
    (body + seq(5 - |body|, _ => 0), rest)
  }

  /** The engine's decoding of one record (src/main.cpp, the `command_fd`
      branch of `buffer_loop`): a one-byte tag, which stays `Nop` when nothing
      is read; for `Resize`, a five-byte body holding the unit byte and the
      magnitude. One record takes one packet, or two for `Resize`. */
  function DecodeCommand(channel: seq<Packet>): (r: (Command, seq<Packet>))
    ensures channel == [] ==> r.1 == []
    ensures channel != [] ==> r.1 == channel[1..] || (|channel| >= 2 && r.1 == channel[2..])
    ensures channel != [] ==> |r.1| < |channel|
    ensures var tag := if channel != [] && channel[0] != [] then channel[0][0] else TAG_NOP;
      && (tag == TAG_NOP ==> r.0 == Nop)
      && (tag == TAG_FLUSH ==> r.0 == Flush)
      && (tag == TAG_RESIZE <==> r.0.Resize?)
      && (tag > TAG_RESIZE ==> r.0 == Unknown(tag))
    ensures channel != [] && channel[0] != [] && channel[0][0] == TAG_RESIZE ==>
      r.1 == if |channel| >= 2 then channel[2..] else []
    ensures channel != [] && (channel[0] == [] || channel[0][0] != TAG_RESIZE) ==> r.1 == channel[1..]
    ensures |channel| >= 2 && channel[0] != [] && channel[0][0] == TAG_RESIZE && |channel[1]| >= 5 ==>
      r.0 == Resize(channel[1][0], FromLittleEndian(channel[1][1..5]))
  {
    var (t, rest) := ReadPacket(channel, 1);
    var tag := if |t| == 1 then t[0] else TAG_NOP;
    if tag == TAG_FLUSH then (Flush, rest)
    else if tag == TAG_RESIZE then
      var (data, rest') := ReadBody(rest);
      (Resize(data[0], FromLittleEndian(data[1..5])), rest')
    else if tag == TAG_NOP then (Nop, rest)
    else (Unknown(tag), rest)
  }

  /** The numbering of the `Commands` enumeration as the engine reads it: tag
      0 is Nop, 1 is Flush, 2 is Resize, reading its body from the next
      packet; any other byte is a command the engine does not know, and an
      empty read leaves the tag at 0. */
  lemma {:induction false} CommandTags(body: Packet, rest: seq<Packet>, tag: byte)
    ensures DecodeCommand([[0]] + rest) == (Nop, rest)
    ensures DecodeCommand([[]] + rest) == (Nop, rest)
    ensures DecodeCommand([[1]] + rest) == (Flush, rest)
    ensures |body| == 5 ==>
      DecodeCommand([[2], body] + rest) == (Resize(body[0], FromLittleEndian(body[1..])), rest)
    ensures tag >= 3 ==> DecodeCommand([[tag]] + rest) == (Unknown(tag), rest)
  {
    assert ([[0]] + rest)[1..] == rest;
    assert ([[]] + rest)[1..] == rest;
    assert ([[1]] + rest)[1..] == rest;
    assert ([[tag]] + rest)[1..] == rest;
    assert ([[2], body] + rest)[1..] == [body] + rest;
    assert ([body] + rest)[1..] == rest;
    if |body| == 5 {
      assert body[..5] == body;
    }
  }

  /** The signals `receive_commands` waits for. */
  datatype Signal =
    | Hangup               // SIGHUP
    | Interrupt            // SIGINT
    | Terminate            // SIGTERM
    | BrokenPipe           // SIGPIPE
    | Quit                 // SIGQUIT
    | User1(payload: u32)  // SIGUSR1, `si_value.sival_int` read as `uint32_t`

  /** Signals other than SIGHUP and SIGUSR1 set the shutdown sentinel. */
  predicate EndsListener(sig: Signal)
  {
    !(sig.Hangup? || sig.User1?)
  }

  /** The packets the listener writes for one signal: SIGHUP is `[1]`,
      SIGUSR1 is `[2]` then `[unit, size as four bytes]` with the payload
      unpacked, any other signal `[0]` (after the sentinel is set). */
  function EncodeSignal(sig: Signal): (packets: seq<Packet>)
    ensures |packets| >= 1 && forall i :: 0 <= i < |packets| ==> |packets[i]| > 0
  {
    match sig
    case Hangup => [[TAG_FLUSH]]
    case User1(p) =>
      var (unit, size) := Unpack(p);
      [[TAG_RESIZE], [unit] + LittleEndian(size)]
    case _ => [[TAG_NOP]]
  }

  /** The command a signal stands for. */
  function CommandOf(sig: Signal): Command
  {
    match sig
    case Hangup => Flush
    case User1(p) => Resize(Unpack(p).0, Unpack(p).1)
    case _ => Nop
  }

  /** The engine's decoding inverts the listener's encoding, one record at a
      time, whatever follows it in the pipe. */
  lemma {:induction false} DecodeEncode(sig: Signal, rest: seq<Packet>)
    ensures DecodeCommand(EncodeSignal(sig) + rest) == (CommandOf(sig), rest)
  {
    var ch := EncodeSignal(sig) + rest;
    assert ch[0] == EncodeSignal(sig)[0];
    match sig
    case User1(p) =>
      var (unit, size) := Unpack(p);
      var body := [unit] + LittleEndian(size);
      assert ch[1..] == [body] + rest;
      assert body[..5] == body;
      assert body[1..5] == LittleEndian(size);
      LittleEndianRoundTrip(size);
    case _ =>
      assert ch[1..] == rest;
  }
}
