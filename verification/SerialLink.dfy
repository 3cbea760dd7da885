// The serial line between the STM32 (STM32/Src/freertos.c) and the controller
// (thread_io/tasks.c): eight-byte messages packed into 64 bits for the RTOS queue,
// sent as a marker and a fixed-size buffer, and found again on the other side.

module SerialLink {
  type Byte = b: int | 0 <= b < 0x100

  const SERIAL_BUFF_SIZE := 50
  const MARKER: Byte := 0xFF
  const FRAME_SIZE := 51          // the marker and the buffer

  // ---------- packing ----------

  /** `var64 <<= 8` on a uint64_t. */
  function ShiftLeft8(v: nat): (r: nat)
    ensures r % 0x100 == 0
  {
    assert v * 0x100 % 0x1_0000_0000_0000_0000 == v % 0x0100_0000_0000_0000 * 0x100;
    v * 0x100 % 0x1_0000_0000_0000_0000
  }

  /** `var64 |= b` where the low byte of var64 is zero. */
  function OrLow(v: nat, b: Byte): nat
    requires v % 0x100 == 0
  {
    v + b
  }

  /** The bytes of a message as one number, the first byte lowest. */
  function Packed(bytes: seq<Byte>): nat {
    if bytes == [] then 0 else 0x100 * Packed(bytes[1..]) + bytes[0]
  }

  /** n bytes taken from the low end, by `(UCHAR)v` and `v >>= 8`. */
  function Unpacked(v: nat, n: nat): (bytes: seq<Byte>)
    ensures |bytes| == n
    decreases n
  {
    if n == 0 then [] else [v % 0x100] + Unpacked(v / 0x100, n - 1)
  }

  lemma {:induction false} PackedFits(bytes: seq<Byte>, k: nat)
    requires k <= |bytes| <= 8
    ensures Packed(bytes[k..]) < Power256(|bytes| - k)
    decreases |bytes| - k
  {
    if k < |bytes| {
      assert bytes[k..][1..] == bytes[k + 1..];
      PackedFits(bytes, k + 1);
    }
  }

  function Power256(n: nat): nat {
    if n == 0 then 1 else 0x100 * Power256(n - 1)
  }

  lemma PowerFits(n: nat)
    requires n <= 7
    ensures Power256(n) <= 0x0100_0000_0000_0000
  {
    assert Power256(3) == 0x100_0000;
    if n > 3 {
      assert Power256(4) == 0x1_0000_0000 && Power256(5) == 0x100_0000_0000;
      assert Power256(6) == 0x1_0000_0000_0000 && Power256(7) == 0x0100_0000_0000_0000;
    }
  }

  /** One of pack64's pairs of lines: nothing is shifted out. */
  method PushByte(v: nat, b: Byte, ghost bytes: seq<Byte>, ghost k: nat) returns (var64: nat)
    requires |bytes| == 8 && k < 7 && v == Packed(bytes[k + 1..]) && b == bytes[k]
    ensures var64 == Packed(bytes[k..])
  {
    PackedFits(bytes, k + 1);
    PowerFits(7 - k);
    assert bytes[k..][1..] == bytes[k + 1..];
    var64 := ShiftLeft8(v);
    var64 := OrLow(var64, b);
  }

  /** pack64 */
  method Pack64(buff: seq<Byte>) returns (var64: nat)
    requires |buff| >= 8
    ensures var64 == Packed(buff[..8])
  {
    ghost var bytes := buff[..8];
    assert bytes[7..] == [buff[7]] && bytes[0..] == bytes;
    var64 := buff[7];
    var64 := PushByte(var64, buff[6], bytes, 6);
    var64 := PushByte(var64, buff[5], bytes, 5);
    var64 := PushByte(var64, buff[4], bytes, 4);
    var64 := PushByte(var64, buff[3], bytes, 3);
    var64 := PushByte(var64, buff[2], bytes, 2);
    var64 := PushByte(var64, buff[1], bytes, 1);
    var64 := PushByte(var64, buff[0], bytes, 0);
  }

  lemma UnpackedEight(v: nat)
    ensures var v1 := v / 0x100; var v2 := v1 / 0x100; var v3 := v2 / 0x100; var v4 := v3 / 0x100;
            var v5 := v4 / 0x100; var v6 := v5 / 0x100; var v7 := v6 / 0x100;
            Unpacked(v, 8) == [v % 0x100, v1 % 0x100, v2 % 0x100, v3 % 0x100,
                               v4 % 0x100, v5 % 0x100, v6 % 0x100, v7 % 0x100]
  {
    var v4 := v / 0x100 / 0x100 / 0x100 / 0x100;
    UnpackedFour(v, 8);
    UnpackedFour(v4, 4);
    assert Unpacked(v4 / 0x100 / 0x100 / 0x100 / 0x100, 0) == [];
  }

  lemma UnpackedFour(v: nat, n: nat)
    requires n >= 4
    ensures var v1 := v / 0x100; var v2 := v1 / 0x100; var v3 := v2 / 0x100;
            Unpacked(v, n) == [v % 0x100, v1 % 0x100, v2 % 0x100, v3 % 0x100] + Unpacked(v3 / 0x100, n - 4)
  {
    var v1 := v / 0x100;
    var v2 := v1 / 0x100;
    assert Unpacked(v, n) == [v % 0x100] + Unpacked(v1, n - 1);
    assert Unpacked(v1, n - 1) == [v1 % 0x100] + Unpacked(v2, n - 2);
    assert Unpacked(v2, n - 2) == [v2 % 0x100] + Unpacked(v2 / 0x100, n - 3);
  }

  /** Unpacking gives every message back. */
  lemma {:induction false} UnpackPacked(bytes: seq<Byte>)
    ensures Unpacked(Packed(bytes), |bytes|) == bytes
  {
    if bytes != [] {
      UnpackPacked(bytes[1..]);
      assert Packed(bytes) % 0x100 == bytes[0] && Packed(bytes) / 0x100 == Packed(bytes[1..]);
    }
  }

  // ---------- sending ----------

  function Zeros(n: nat): (z: seq<Byte>)
    ensures |z| == n && forall k :: 0 <= k < n ==> z[k] == 0
  {
    seq(n, _ => 0)
  }

  /** The buffer that carries an eight-byte message. */
  function Padded(m: seq<Byte>): seq<Byte> {
    m + Zeros(42)
  }

  /** The bytes on the line for a list of queued words. */
  function Wire(words: seq<nat>): seq<Byte> {
    if words == [] then [] else ([MARKER] + Padded(Unpacked(words[0], 8))) + Wire(words[1..])
  }

  class Sender {
    const ucbuff: array<Byte>
    var serverUp: bool
    var line: seq<Byte>        // everything transmitted so far

    ghost predicate Valid()
      reads this, ucbuff
    {
      ucbuff.Length == SERIAL_BUFF_SIZE && ucbuff[8..] == Zeros(42)
    }

    constructor ()
      ensures Valid() && line == [] && !serverUp && fresh(ucbuff)
    {
      ucbuff := new Byte[SERIAL_BUFF_SIZE](_ => 0);
      serverUp, line := false, [];
    }

    /** StartTask7200 takes one word from the queue. */
    method Send(word: nat)
      requires Valid()
      modifies this`line, ucbuff
      ensures Valid() && line == old(line) + if serverUp then Wire([word]) else []
    {
      var avrBuffer := word;
      ucbuff[0] := avrBuffer % 0x100;
      avrBuffer := avrBuffer / 0x100;
      ucbuff[1] := avrBuffer % 0x100;
      avrBuffer := avrBuffer / 0x100;
      ucbuff[2] := avrBuffer % 0x100;
      avrBuffer := avrBuffer / 0x100;
      ucbuff[3] := avrBuffer % 0x100;
      avrBuffer := avrBuffer / 0x100;
      ucbuff[4] := avrBuffer % 0x100;
      avrBuffer := avrBuffer / 0x100;
      ucbuff[5] := avrBuffer % 0x100;
      avrBuffer := avrBuffer / 0x100;
      ucbuff[6] := avrBuffer % 0x100;
      avrBuffer := avrBuffer / 0x100;
      ucbuff[7] := avrBuffer % 0x100;
      avrBuffer := avrBuffer / 0x100;
      ghost var all := Unpacked(word, 8);
      UnpackedEight(word);
      assert ucbuff[..8] == all && ucbuff[..] == ucbuff[..8] + ucbuff[8..];
      if serverUp {
        assert [MARKER] + Padded(all) + Wire([]) == [MARKER] + Padded(all);
        line := line + ([MARKER] + ucbuff[..]);
      }
    }
  }

  // ---------- receiving ----------

  /** Receiving one buffer: Waiting while the line has not brought it in full. */
  datatype Reception = Got(buffer: seq<Byte>, rest: seq<Byte>) | Waiting

  /** Skips to a marker and takes the bytes that follow it. */
  function Receive(s: seq<Byte>): (r: Reception)
    ensures r.Got? ==> |r.rest| < |s|
  {
    if s == [] then Waiting
    else if s[0] != MARKER then Receive(s[1..])
    else if |s| < FRAME_SIZE then Waiting
    else Got(s[1..FRAME_SIZE], s[FRAME_SIZE..])
  }

  /** All buffers that can be received from a line. */
  function ReceiveAll(s: seq<Byte>): seq<seq<Byte>>
    decreases |s|
  {
    match Receive(s)
    case Waiting => []
    case Got(buffer, rest) => [buffer] + ReceiveAll(rest)
  }

  class Receiver {
    const readSerialBuffer: array<Byte>
    var line: seq<Byte>        // what has arrived and was not read yet

    constructor (arrived: seq<Byte>)
      ensures readSerialBuffer.Length == SERIAL_BUFF_SIZE && line == arrived && fresh(readSerialBuffer)
    {
      readSerialBuffer := new Byte[SERIAL_BUFF_SIZE](_ => 0);
      line := arrived;
    }

    /** The receive loop of serial_recv_task; false where it still waits for a byte. */
    method ReceiveBuffer() returns (got: bool)
      requires readSerialBuffer.Length == SERIAL_BUFF_SIZE
      modifies this`line, readSerialBuffer
      ensures Receive(old(line)) == if got then Got(readSerialBuffer[..], line) else Waiting
    {
      ghost var arrived := line;
      var ch: Byte := 0;
      while ch != MARKER
        invariant ch != MARKER ==> Receive(arrived) == Receive(line)
        invariant ch == MARKER ==> Receive(arrived) == Receive([MARKER] + line)
        decreases |line|, ch != MARKER
      {
        if line == [] {
          return false;
        }
        ch := line[0];
        assert line == [ch] + line[1..];
        line := line[1..];
      }
      ghost var start := line;
      for i := 0 to SERIAL_BUFF_SIZE
        invariant i <= |start| && line == start[i..] && readSerialBuffer[..i] == start[..i]
      {
        if line == [] {
          return false;
        }
        readSerialBuffer[i] := line[0];
        line := line[1..];
      }
      assert readSerialBuffer[..] == start[..SERIAL_BUFF_SIZE];
      assert ([MARKER] + start)[1..FRAME_SIZE] == start[..SERIAL_BUFF_SIZE];
      assert ([MARKER] + start)[FRAME_SIZE..] == line;
      return true;
    }
  }

  // ---------- the whole link ----------

  function PackAll(ms: seq<seq<Byte>>): seq<nat> {
    if ms == [] then [] else [Packed(ms[0])] + PackAll(ms[1..])
  }

  function Buffers(ms: seq<seq<Byte>>): (bs: seq<seq<Byte>>)
    ensures |bs| == |ms|
  {
    if ms == [] then [] else [Padded(ms[0])] + Buffers(ms[1..])
  }

  predicate AreMessages(ms: seq<seq<Byte>>) {
    forall j :: 0 <= j < |ms| ==> |ms[j]| == 8
  }

  lemma {:induction false} SkipJunk(junk: seq<Byte>, s: seq<Byte>)
    requires MARKER !in junk
    ensures Receive(junk + s) == Receive(s)
  {
    if junk == [] {
      assert junk + s == s;
    } else {
      assert (junk + s)[1..] == junk[1..] + s;
      SkipJunk(junk[1..], s);
    }
  }

  lemma NextFrame(m: seq<Byte>, s: seq<Byte>)
    requires |m| == 8
    ensures Receive(([MARKER] + Padded(m)) + s) == Got(Padded(m), s)
  {
    var t := ([MARKER] + Padded(m)) + s;
    assert t[1..FRAME_SIZE] == Padded(m) && t[FRAME_SIZE..] == s;
  }

  /** How many whole frames n bytes hold. */
  function Whole(n: int): nat {
    if n < FRAME_SIZE then 0 else 1 + Whole(n - FRAME_SIZE)
  }

  /** Main result.  Of any list of messages, packed, sent and received behind junk without a
      marker, exactly those come back, in order, whose frames have arrived in full; bytes of
      the value 0xFF inside a message do not disturb it. */
  lemma LinkDelivers(junk: seq<Byte>, ms: seq<seq<Byte>>, n: nat)
    requires MARKER !in junk && AreMessages(ms)
    requires |junk| <= n <= |junk + Wire(PackAll(ms))|
    ensures var k := Whole(n - |junk|);
            k <= |ms| && ReceiveAll((junk + Wire(PackAll(ms)))[..n]) == Buffers(ms)[..k]
  {
    var wire := Wire(PackAll(ms));
    assert (junk + wire)[..n] == junk + wire[..n - |junk|];
    SkipJunk(junk, wire[..n - |junk|]);
    WireDelivers(ms, n - |junk|);
  }

  /** The line begins with the first message's frame. */
  lemma WireOf(ms: seq<seq<Byte>>)
    requires AreMessages(ms) && ms != []
    ensures Wire(PackAll(ms)) == ([MARKER] + Padded(ms[0])) + Wire(PackAll(ms[1..]))
  {
    UnpackPacked(ms[0]);
    assert PackAll(ms)[1..] == PackAll(ms[1..]);
  }

  lemma {:induction false} WireDelivers(ms: seq<seq<Byte>>, n: nat)
    requires AreMessages(ms) && n <= |Wire(PackAll(ms))|
    ensures Whole(n) <= |ms| && ReceiveAll(Wire(PackAll(ms))[..n]) == Buffers(ms)[..Whole(n)]
    decreases |ms|
  {
    if ms != [] {
      var wire, frame, more := Wire(PackAll(ms)), [MARKER] + Padded(ms[0]), Wire(PackAll(ms[1..]));
      WireOf(ms);
      if n >= FRAME_SIZE {
        var rest := more[..n - FRAME_SIZE];
        assert wire[..n] == frame + rest;
        FirstBuffer(ms[0], rest);
        WireDelivers(ms[1..], n - FRAME_SIZE);
        BuffersPrefix(ms, Whole(n - FRAME_SIZE));
      } else if n > 0 {
        assert wire[..n][0] == MARKER;
      }
    }
  }

  lemma FirstBuffer(m: seq<Byte>, s: seq<Byte>)
    requires |m| == 8
    ensures ReceiveAll(([MARKER] + Padded(m)) + s) == [Padded(m)] + ReceiveAll(s)
  {
    NextFrame(m, s);
  }

  lemma BuffersPrefix(ms: seq<seq<Byte>>, k: nat)
    requires ms != [] && k < |ms|
    ensures Buffers(ms)[..k + 1] == [Padded(ms[0])] + Buffers(ms[1..])[..k]
  {
    TakeOneMore(Padded(ms[0]), Buffers(ms[1..]), k);
  }

  lemma TakeOneMore<T>(x: T, xs: seq<T>, k: nat)
    requires k <= |xs|
    ensures ([x] + xs)[..k + 1] == [x] + xs[..k]
  {
  }

  /** Once everything has arrived, the whole list has. */
  lemma LinkRoundTrip(junk: seq<Byte>, ms: seq<seq<Byte>>)
    requires MARKER !in junk && AreMessages(ms)
    ensures ReceiveAll(junk + Wire(PackAll(ms))) == Buffers(ms)
  {
    var s := junk + Wire(PackAll(ms));
    WireLength(PackAll(ms));
    PackAllLength(ms);
    assert s[..|s|] == s;
    LinkDelivers(junk, ms, |s|);
    assert Buffers(ms)[..|ms|] == Buffers(ms);
  }

  lemma {:induction false} PackAllLength(ms: seq<seq<Byte>>)
    ensures |PackAll(ms)| == |ms|
  {
    if ms != [] {
      PackAllLength(ms[1..]);
    }
  }

  lemma {:induction false} WireLength(words: seq<nat>)
    ensures Whole(|Wire(words)|) == |words|
  {
    if words != [] {
      WireLength(words[1..]);
    }
  }

  // ---------- markers in the junk ----------

  /** The first reception from a line whose junk holds a marker: b is the junk behind it. */
  lemma {:induction false} FirstReception(junk: seq<Byte>, s: seq<Byte>) returns (b: seq<Byte>)
    requires MARKER in junk && |s| >= SERIAL_BUFF_SIZE
    ensures |b| < |junk| && b == junk[|junk| - |b|..]
    ensures Receive(junk + s)
            == if |b| >= SERIAL_BUFF_SIZE then Got(b[..SERIAL_BUFF_SIZE], b[SERIAL_BUFF_SIZE..] + s)
               else Got(b + s[..SERIAL_BUFF_SIZE - |b|], s[SERIAL_BUFF_SIZE - |b|..])
    decreases |junk|
  {
    var t := junk + s;
    if junk[0] == MARKER {
      b := junk[1..];
      assert t[1..] == b + s;
      assert t[1..FRAME_SIZE] == t[1..][..SERIAL_BUFF_SIZE];
      assert t[FRAME_SIZE..] == t[1..][SERIAL_BUFF_SIZE..];
    } else {
      assert t[1..] == junk[1..] + s;
      b := FirstReception(junk[1..], s);
    }
  }

  /** Whatever precedes them, n frames make the receiver deliver at least n buffers. */
  lemma {:induction false} NoFewerBuffers(junk: seq<Byte>, words: seq<nat>)
    ensures |ReceiveAll(junk + Wire(words))| >= |words|
    decreases |words|, |junk|
  {
    if words != [] {
      var wire, frame, more := Wire(words), [MARKER] + Padded(Unpacked(words[0], 8)), Wire(words[1..]);
      if MARKER in junk {
        var b := FirstReception(junk, wire);
        if |b| >= SERIAL_BUFF_SIZE {
          NoFewerBuffers(b[SERIAL_BUFF_SIZE..], words);
        } else {
          var q := SERIAL_BUFF_SIZE - |b|;
          assert wire[q..] == frame[q..] + more;
          NoFewerBuffers(frame[q..], words[1..]);
        }
      } else {
        SkipJunk(junk, wire);
        FirstBuffer(Unpacked(words[0], 8), more);
        assert ReceiveAll(junk + wire) == ReceiveAll(wire);
        assert [] + more == more;
        NoFewerBuffers([], words[1..]);
      }
    }
  }

  /** A buffer that starts in front of a frame is not the frame's buffer: at position i it has a
      marker where the frame has none. */
  lemma ShiftedDiffers(b: seq<Byte>, m: seq<Byte>) returns (i: nat)
    requires |m| == 8 && |b| < SERIAL_BUFF_SIZE
    ensures i < SERIAL_BUFF_SIZE
    ensures (b + ([MARKER] + Padded(m))[..SERIAL_BUFF_SIZE - |b|])[i] == MARKER != Padded(m)[i]
  {
    var shifted := b + ([MARKER] + Padded(m))[..SERIAL_BUFF_SIZE - |b|];
    i := |b|;
    while Padded(m)[i] == MARKER
      invariant |b| <= i < SERIAL_BUFF_SIZE && shifted[i] == MARKER
      decreases SERIAL_BUFF_SIZE - i
    {
      assert i < 8;
      assert shifted[i + |b| + 1] == Padded(m)[i];
      i := i + |b| + 1;
    }
  }

  /** Any marker in the junk spoils the list: it gains a buffer, or its first buffer is wrong. */
  lemma StrayMarker(junk: seq<Byte>, ms: seq<seq<Byte>>)
    requires AreMessages(ms) && ms != [] && MARKER in junk
    ensures ReceiveAll(junk + Wire(PackAll(ms))) != Buffers(ms)
  {
    var words := PackAll(ms);
    var wire, frame := Wire(words), [MARKER] + Padded(ms[0]);
    PackAllLength(ms);
    UnpackPacked(ms[0]);
    assert wire == frame + Wire(words[1..]);
    var b := FirstReception(junk, wire);
    if |b| >= SERIAL_BUFF_SIZE {
      NoFewerBuffers(b[SERIAL_BUFF_SIZE..], words);
    } else {
      var i := ShiftedDiffers(b, ms[0]);
      assert wire[..SERIAL_BUFF_SIZE - |b|] == frame[..SERIAL_BUFF_SIZE - |b|];
      assert ReceiveAll(junk + wire)[0] == b + frame[..SERIAL_BUFF_SIZE - |b|];
      assert Buffers(ms)[0] == Padded(ms[0]);
    }
  }

  /** The exact condition of the round trip. */
  lemma RoundTripIffNoMarker(junk: seq<Byte>, ms: seq<seq<Byte>>)
    requires AreMessages(ms) && ms != []
    ensures ReceiveAll(junk + Wire(PackAll(ms))) == Buffers(ms) <==> MARKER !in junk
  {
    if MARKER in junk {
      StrayMarker(junk, ms);
    } else {
      LinkRoundTrip(junk, ms);
    }
  }
}

// Temperatures and rates on their way from the host's configuration message through
// the controller (thread_io/cmd_tasks.c, thread_io/tasks.c) into the STM32
// (STM32/Src/freertos.c, StartRecv7200).

module Config {
  import opened SerialLink

  // Command codes both sides share (mytypes.h, cmd_types).
  const ON_FAN: Byte := 7
  const OFF_FAN: Byte := 8
  const ESTOP_SIGNAL: Byte := 14
  const START_SEQ: Byte := 20
  const SHUTDOWN: Byte := 21
  const SERVER_UP: Byte := 63
  const SERVER_DOWN: Byte := 64
  const SEND_CONFIG2: Byte := 82

  /** struct params, the part UPDATE_CONFIG sets. */
  datatype Params = Params(
    rpmMphUpdateRate: int, fpgaXmitRate: int, highRevLimit: int, lowRevLimit: int,
    coolingFanOn: int, coolingFanOff: int, blowerEnabled: int, blower1On: int, blower2On: int, blower3On: int,
    lightsOnDelay: int, engineTempLimit: int, battBoxTemp: int,
    testBank: int, passwordTimeout: int, passwordRetries: int, baudrate3: int)

  /** A 16-bit number sent low byte first. */
  function Word(low: Byte, high: Byte): nat {
    0x100 * high + low
  }

  lemma LowOfWord(low: Byte, high: Byte)
    ensures Word(low, high) % 0x100 == low && LowByte(Word(low, high)) == low
  {
  }

  /** The parameters a configuration message carries. */
  function ParamsOf(m: seq<Byte>): Params
    requires |m| >= 36
  {
    Params(Word(m[2], m[3]), Word(m[4], m[5]), Word(m[6], m[7]), Word(m[8], m[9]),
           Word(m[10], m[11]), Word(m[12], m[13]), Word(m[14], m[15]),
           Word(m[16], m[17]), Word(m[18], m[19]), Word(m[20], m[21]),
           Word(m[22], m[23]), Word(m[24], m[25]), Word(m[26], m[27]),
           Word(m[28], m[29]), Word(m[30], m[31]), Word(m[32], m[33]), Word(m[34], m[35]))
  }

  /** The buffer UPDATE_CONFIG sends on: the low bytes of the rates and limits, then the
      temperatures as they came, without the lights' delay between them. */
  function ConfigBuffer(m: seq<Byte>, before: seq<Byte>): (b: seq<Byte>)
    requires |m| >= 36 && |before| == SERIAL_BUFF_SIZE
    ensures |b| == SERIAL_BUFF_SIZE
  {
    [m[2], m[4], m[6], m[8]] + m[10..22] + m[24..28] + before[20..]
  }

  /** What a controller that starts has for parameters. */
  function Reloaded(saved: Params): Params {
    saved.(blower1On := 32)
  }

  function LowByte(x: int): Byte { x % 0x1_0000_0000 % 0x100 }

  function HighByte(x: int): Byte { x % 0x1_0000_0000 / 0x100 % 0x100 }

  /** The buffer of the SERVER_UP message; `before` is what the buffer held. */
  function StartBuffer(p: Params, before: seq<Byte>): (b: seq<Byte>)
    requires |before| == SERIAL_BUFF_SIZE
    ensures |b| == SERIAL_BUFF_SIZE
  {
    StartBytes(p) + before[14..]
  }

  /** The seven temperatures it carries, low byte first. */
  function StartBytes(p: Params): (b: seq<Byte>)
    ensures |b| == 14
  {
    [LowByte(p.engineTempLimit), HighByte(p.engineTempLimit),
     LowByte(p.coolingFanOn), HighByte(p.coolingFanOn),
     LowByte(p.coolingFanOff), HighByte(p.coolingFanOff),
     LowByte(p.blower1On), HighByte(p.blower1On),
     LowByte(p.blower2On), HighByte(p.blower2On),
     LowByte(p.blower3On), HighByte(p.blower3On),
     LowByte(p.blowerEnabled), HighByte(p.blowerEnabled)]
  }

  class Host {
    var ps: Params
    const writeSerialBuffer: array<Byte>
    var line: seq<Byte>        // everything written to the serial port

    ghost predicate Valid()
    {
      writeSerialBuffer.Length == SERIAL_BUFF_SIZE
    }

    /** send_serialother */
    method SendSerialOther(cmd: Byte, buf: array<Byte>)
      requires buf.Length == SERIAL_BUFF_SIZE
      modifies this`line
      ensures line == old(line) + [cmd] + buf[..]
    {
      line := line + [cmd];
      for i := 0 to SERIAL_BUFF_SIZE
        invariant line == old(line) + [cmd] + buf[..i]
      {
        line := line + [buf[i]];
      }
      assert buf[..SERIAL_BUFF_SIZE] == buf[..];
    }

    /** The UPDATE_CONFIG case. */
    method UpdateConfig(msgBuf: seq<Byte>)
      requires Valid() && |msgBuf| >= 36
      modifies this, writeSerialBuffer
      ensures ps == ParamsOf(msgBuf)
      ensures writeSerialBuffer[..] == ConfigBuffer(msgBuf, old(writeSerialBuffer[..]))
      ensures line == old(line) + [SEND_CONFIG2] + writeSerialBuffer[..]
    {
      LoadRates(msgBuf);
      LoadTemperatures(msgBuf);
      ps := ps.(testBank := Word(msgBuf[28], msgBuf[29]), passwordTimeout := Word(msgBuf[30], msgBuf[31]),
                passwordRetries := Word(msgBuf[32], msgBuf[33]), baudrate3 := Word(msgBuf[34], msgBuf[35]));
      SendSerialOther(SEND_CONFIG2, writeSerialBuffer);
    }

    method LoadRates(msgBuf: seq<Byte>)
      requires Valid() && |msgBuf| >= 36
      modifies this`ps, writeSerialBuffer
      ensures ps == old(ps).(
                rpmMphUpdateRate := Word(msgBuf[2], msgBuf[3]), fpgaXmitRate := Word(msgBuf[4], msgBuf[5]),
                highRevLimit := Word(msgBuf[6], msgBuf[7]), lowRevLimit := Word(msgBuf[8], msgBuf[9]))
      ensures writeSerialBuffer[..]
              == [msgBuf[2], msgBuf[4], msgBuf[6], msgBuf[8]] + old(writeSerialBuffer[4..])
    {
      StoreRate(0, msgBuf[2], msgBuf[3]);
      StoreRate(1, msgBuf[4], msgBuf[5]);
      StoreRate(2, msgBuf[6], msgBuf[7]);
      StoreRate(3, msgBuf[8], msgBuf[9]);
      ps := ps.(rpmMphUpdateRate := Word(msgBuf[2], msgBuf[3]));
      ps := ps.(fpgaXmitRate := Word(msgBuf[4], msgBuf[5]));
      ps := ps.(highRevLimit := Word(msgBuf[6], msgBuf[7]));
      ps := ps.(lowRevLimit := Word(msgBuf[8], msgBuf[9]));
    }

    /** `write_serial_buffer[k] = (UCHAR)utemp` */
    method StoreRate(k: nat, low: Byte, high: Byte)
      requires Valid() && k < SERIAL_BUFF_SIZE
      modifies writeSerialBuffer
      ensures writeSerialBuffer[..] == old(writeSerialBuffer[..])[k := low]
    {
      var utemp := Word(low, high);
      LowOfWord(low, high);
      writeSerialBuffer[k] := utemp % 0x100;
    }

    method LoadTemperatures(msgBuf: seq<Byte>)
      requires Valid() && |msgBuf| >= 36
      modifies this`ps, writeSerialBuffer
      ensures ps == old(ps).(
                coolingFanOn := Word(msgBuf[10], msgBuf[11]), coolingFanOff := Word(msgBuf[12], msgBuf[13]),
                blowerEnabled := Word(msgBuf[14], msgBuf[15]), blower1On := Word(msgBuf[16], msgBuf[17]),
                blower2On := Word(msgBuf[18], msgBuf[19]), blower3On := Word(msgBuf[20], msgBuf[21]),
                lightsOnDelay := Word(msgBuf[22], msgBuf[23]), engineTempLimit := Word(msgBuf[24], msgBuf[25]),
                battBoxTemp := Word(msgBuf[26], msgBuf[27]))
      ensures writeSerialBuffer[..]
              == old(writeSerialBuffer[..4]) + msgBuf[10..22] + msgBuf[24..28] + old(writeSerialBuffer[20..])
    {
      ps := ps.(coolingFanOn := Word(msgBuf[10], msgBuf[11]));
      writeSerialBuffer[4], writeSerialBuffer[5] := msgBuf[10], msgBuf[11];
      ps := ps.(coolingFanOff := Word(msgBuf[12], msgBuf[13]));
      writeSerialBuffer[6], writeSerialBuffer[7] := msgBuf[12], msgBuf[13];
      ps := ps.(blowerEnabled := Word(msgBuf[14], msgBuf[15]));
      writeSerialBuffer[8], writeSerialBuffer[9] := msgBuf[14], msgBuf[15];
      ps := ps.(blower1On := Word(msgBuf[16], msgBuf[17]));
      writeSerialBuffer[10], writeSerialBuffer[11] := msgBuf[16], msgBuf[17];
      ps := ps.(blower2On := Word(msgBuf[18], msgBuf[19]));
      writeSerialBuffer[12], writeSerialBuffer[13] := msgBuf[18], msgBuf[19];
      ps := ps.(blower3On := Word(msgBuf[20], msgBuf[21]));
      writeSerialBuffer[14], writeSerialBuffer[15] := msgBuf[20], msgBuf[21];
      ps := ps.(lightsOnDelay := Word(msgBuf[22], msgBuf[23]));
      ps := ps.(engineTempLimit := Word(msgBuf[24], msgBuf[25]));
      writeSerialBuffer[16], writeSerialBuffer[17] := msgBuf[24], msgBuf[25];
      ps := ps.(battBoxTemp := Word(msgBuf[26], msgBuf[27]));
      writeSerialBuffer[18], writeSerialBuffer[19] := msgBuf[26], msgBuf[27];
    }

    /** The end of init_ips: the parameters as last written to the file, but for blower 1. */
    method Reload(saved: Params)
      modifies this`ps
      ensures ps == Reloaded(saved)
    {
      ps := saved;
      ps := ps.(blower1On := 32);
    }

    /** The host's own SERVER_UP command: the buffer sent is the text last printed. */
    method ForwardServerUp(tempx: array<Byte>)
      requires tempx.Length == SERIAL_BUFF_SIZE
      modifies this`line
      ensures line == old(line) + [SERVER_UP] + tempx[..]
    {
      SendSerialOther(SERVER_UP, tempx);
    }

    /** The beginning of serial_recv_task. */
    method AnnounceServer(sendBuffer: array<Byte>)
      requires sendBuffer.Length == SERIAL_BUFF_SIZE
      modifies this`line, sendBuffer
      ensures sendBuffer[..] == StartBuffer(ps, old(sendBuffer[..]))
      ensures line == old(line) + [SERVER_UP] + sendBuffer[..]
    {
      SplitWord(sendBuffer, 0, ps.engineTempLimit);
      SplitWord(sendBuffer, 2, ps.coolingFanOn);
      SplitWord(sendBuffer, 4, ps.coolingFanOff);
      SplitWord(sendBuffer, 6, ps.blower1On);
      SplitWord(sendBuffer, 8, ps.blower2On);
      SplitWord(sendBuffer, 10, ps.blower3On);
      SplitWord(sendBuffer, 12, ps.blowerEnabled);
      SendSerialOther(SERVER_UP, sendBuffer);
    }

    static method SplitWord(buf: array<Byte>, k: nat, value: int)
      requires k + 1 < buf.Length
      modifies buf
      ensures buf[..] == old(buf[..])[k := LowByte(value)][k + 1 := HighByte(value)]
    {
      var temp := value % 0x1_0000_0000;
      buf[k] := temp % 0x100;
      temp := temp / 0x100;
      buf[k + 1] := temp % 0x100;
    }
  }

  // ---------- the STM32's side ----------

  datatype FpgaCmd =
    | RpmMphUpdateRate(rate: Byte)
    | FpgaSendUpdateRate(rate: Byte)
    | HighRevLimit(rev: Byte)
    | LowRevLimit(rev: Byte)

  /** The thresholds and switches that messages from the controller set. */
  datatype Board = Board(
    engineTempLimit: nat, fanOnTemp: nat, fanOffTemp: nat, blowerEnTemp: nat,
    blower1Temp: nat, blower2Temp: nat, blower3Temp: nat, battBoxTemp: nat,
    fanOn: bool, engineOn: bool, blowerOnCountdown: int, serverUp: bool, fpga: seq<FpgaCmd>)

  /** The first half of SERVER_UP: the limit and the fan. */
  function StartedFan(b: Board, buff: seq<Byte>): Board
    requires |buff| == SERIAL_BUFF_SIZE + 1
  {
    b.(engineTempLimit := Word(buff[1], buff[2]), fanOnTemp := Word(buff[3], buff[4]),
       fanOffTemp := Word(buff[5], buff[6]))
  }

  /** The second half: the blower. */
  function Started(b: Board, buff: seq<Byte>): Board
    requires |buff| == SERIAL_BUFF_SIZE + 1
  {
    StartedFan(b, buff).(
      blower1Temp := Word(buff[7], buff[8]), blower2Temp := Word(buff[9], buff[10]),
      blower3Temp := Word(buff[11], buff[12]), blowerEnTemp := Word(buff[13], buff[14]), serverUp := true)
  }

  /** The first half of SEND_CONFIG2: rates and limits for the FPGA, and the fan. */
  function ConfiguredFan(b: Board, buff: seq<Byte>): Board
    requires |buff| == SERIAL_BUFF_SIZE + 1
  {
    b.(fanOnTemp := Word(buff[5], buff[6]), fanOffTemp := Word(buff[7], buff[8]),
       fpga := b.fpga + [RpmMphUpdateRate(buff[1]), FpgaSendUpdateRate(buff[2]),
                         HighRevLimit(buff[3]), LowRevLimit(buff[4])])
  }

  /** The second half: the other temperatures. */
  function ConfiguredTemps(b: Board, buff: seq<Byte>): Board
    requires |buff| == SERIAL_BUFF_SIZE + 1
  {
    b.(blowerEnTemp := Word(buff[9], buff[10]), blower1Temp := Word(buff[11], buff[12]),
       blower2Temp := Word(buff[13], buff[14]), blower3Temp := Word(buff[15], buff[16]),
       engineTempLimit := Word(buff[17], buff[18]), battBoxTemp := Word(buff[19], buff[20]))
  }

  function Received(b: Board, buff: seq<Byte>): Board
    requires |buff| == SERIAL_BUFF_SIZE + 1
  {
    if buff[0] == ON_FAN then b.(fanOn := true)
    else if buff[0] == OFF_FAN then b.(fanOn := false)
    else if buff[0] == START_SEQ then b.(engineOn := true, blowerOnCountdown := 5)
    else if buff[0] == SHUTDOWN || buff[0] == ESTOP_SIGNAL then b.(engineOn := false)
    else if buff[0] == SERVER_UP then Started(b, buff)
    else if buff[0] == SERVER_DOWN then b.(serverUp := false)
    else if buff[0] == SEND_CONFIG2 then ConfiguredTemps(ConfiguredFan(b, buff), buff)
    else b
  }

  class Stm32 {
    var engineTempLimit: nat
    var fanOnTemp: nat
    var fanOffTemp: nat
    var blowerEnTemp: nat
    var blower1Temp: nat
    var blower2Temp: nat
    var blower3Temp: nat
    var battBoxTemp: nat
    var fanOn: bool
    var engineOn: bool
    var blowerOnCountdown: int
    var serverUp: bool
    var fpga: seq<FpgaCmd>     // the messages queued for the FPGA

    ghost function View(): Board
      reads this
    {
      Board(engineTempLimit, fanOnTemp, fanOffTemp, blowerEnTemp, blower1Temp, blower2Temp, blower3Temp, battBoxTemp,
            fanOn, engineOn, blowerOnCountdown, serverUp, fpga)
    }

    method StoreFanStart(buff: seq<Byte>)
      requires |buff| == SERIAL_BUFF_SIZE + 1
      modifies this
      ensures View() == StartedFan(old(View()), buff)
    {
      engineTempLimit := Word(buff[1], buff[2]);
      fanOnTemp := Word(buff[3], buff[4]);
      fanOffTemp := Word(buff[5], buff[6]);
    }

    method StoreStart(buff: seq<Byte>)
      requires |buff| == SERIAL_BUFF_SIZE + 1
      modifies this
      ensures View() == Started(old(View()), buff)
    {
      StoreFanStart(buff);
      blower1Temp := Word(buff[7], buff[8]);
      blower2Temp := Word(buff[9], buff[10]);
      blower3Temp := Word(buff[11], buff[12]);
      blowerEnTemp := Word(buff[13], buff[14]);
      serverUp := true;
    }

    method StoreFanConfig(buff: seq<Byte>)
      requires |buff| == SERIAL_BUFF_SIZE + 1
      modifies this
      ensures View() == ConfiguredFan(old(View()), buff)
    {
      fpga := fpga + [RpmMphUpdateRate(buff[1]), FpgaSendUpdateRate(buff[2]),
                      HighRevLimit(buff[3]), LowRevLimit(buff[4])];
      fanOnTemp := Word(buff[5], buff[6]);
      fanOffTemp := Word(buff[7], buff[8]);
    }

    method StoreTempConfig(buff: seq<Byte>)
      requires |buff| == SERIAL_BUFF_SIZE + 1
      modifies this
      ensures View() == ConfiguredTemps(old(View()), buff)
    {
      blowerEnTemp := Word(buff[9], buff[10]);
      blower1Temp := Word(buff[11], buff[12]);
      blower2Temp := Word(buff[13], buff[14]);
      blower3Temp := Word(buff[15], buff[16]);
      engineTempLimit := Word(buff[17], buff[18]);
      battBoxTemp := Word(buff[19], buff[20]);
    }

    /** The switch of StartRecv7200. */
    method Dispatch(buff: seq<Byte>)
      requires |buff| == SERIAL_BUFF_SIZE + 1
      modifies this
      ensures View() == Received(old(View()), buff)
    {
      var cmd := buff[0];
      if cmd == ON_FAN {
        fanOn := true;
      } else if cmd == OFF_FAN {
        fanOn := false;
      } else if cmd == START_SEQ {
        engineOn := true;
        blowerOnCountdown := 5;
      } else if cmd == SHUTDOWN || cmd == ESTOP_SIGNAL {
        engineOn := false;
      } else if cmd == SERVER_UP {
        StoreStart(buff);
      } else if cmd == SERVER_DOWN {
        serverUp := false;
      } else if cmd == SEND_CONFIG2 {
        StoreFanConfig(buff);
        StoreTempConfig(buff);
      }
    }
  }

  // ---------- both sides agree ----------

  /** The temperatures the STM32 holds are the controller's, name by name. */
  predicate Agrees(b: Board, p: Params) {
    && b.engineTempLimit == p.engineTempLimit && b.fanOnTemp == p.coolingFanOn && b.fanOffTemp == p.coolingFanOff
    && b.blowerEnTemp == p.blowerEnabled && b.blower1Temp == p.blower1On && b.blower2Temp == p.blower2On
    && b.blower3Temp == p.blower3On
  }

  /** Every temperature of a configuration message reaches the STM32 under its own name, and
      the FPGA gets the low bytes of the rates and limits. */
  lemma ConfigArrives(b: Board, m: seq<Byte>, before: seq<Byte>)
    requires |m| >= 36 && |before| == SERIAL_BUFF_SIZE
    ensures var p, after := ParamsOf(m), Received(b, [SEND_CONFIG2] + ConfigBuffer(m, before));
            && Agrees(after, p) && after.battBoxTemp == p.battBoxTemp
            && after.fpga == b.fpga + Rates(p)
            && after.fanOn == b.fanOn && after.engineOn == b.engineOn && after.serverUp == b.serverUp
            && after.blowerOnCountdown == b.blowerOnCountdown
  {
    var buff := [SEND_CONFIG2] + ConfigBuffer(m, before);
    ConfigLayout(m, before);
    RatesOf(m);
    assert Received(b, buff) == ConfiguredTemps(ConfiguredFan(b, buff), buff);
  }

  /** The messages for the FPGA: each carries the low byte of its parameter. */
  function Rates(p: Params): seq<FpgaCmd> {
    [RpmMphUpdateRate(LowByte(p.rpmMphUpdateRate)), FpgaSendUpdateRate(LowByte(p.fpgaXmitRate)),
     HighRevLimit(LowByte(p.highRevLimit)), LowRevLimit(LowByte(p.lowRevLimit))]
  }

  lemma RatesOf(m: seq<Byte>)
    requires |m| >= 36
    ensures Rates(ParamsOf(m))
            == [RpmMphUpdateRate(m[2]), FpgaSendUpdateRate(m[4]), HighRevLimit(m[6]), LowRevLimit(m[8])]
  {
    LowOfWord(m[2], m[3]);
    LowOfWord(m[4], m[5]);
    LowOfWord(m[6], m[7]);
    LowOfWord(m[8], m[9]);
  }

  lemma ConfigLayout(m: seq<Byte>, before: seq<Byte>)
    requires |m| >= 36 && |before| == SERIAL_BUFF_SIZE
    ensures var buff := [SEND_CONFIG2] + ConfigBuffer(m, before);
            && buff[0] == SEND_CONFIG2 && buff[1] == m[2] && buff[2] == m[4] && buff[3] == m[6] && buff[4] == m[8]
            && buff[5] == m[10] && buff[6] == m[11] && buff[7] == m[12] && buff[8] == m[13]
            && buff[9] == m[14] && buff[10] == m[15] && buff[11] == m[16] && buff[12] == m[17]
            && buff[13] == m[18] && buff[14] == m[19] && buff[15] == m[20] && buff[16] == m[21]
            && buff[17] == m[24] && buff[18] == m[25] && buff[19] == m[26] && buff[20] == m[27]
  {
  }

  predicate Fits16(x: int) { 0 <= x < 0x1_0000 }

  predicate AllFit16(p: Params) {
    && Fits16(p.engineTempLimit) && Fits16(p.coolingFanOn) && Fits16(p.coolingFanOff) && Fits16(p.blowerEnabled)
    && Fits16(p.blower1On) && Fits16(p.blower2On) && Fits16(p.blower3On)
  }

  /** The SERVER_UP message hands over seven temperatures, and does so exactly when each fits
      16 bits; it leaves the battery box's alone. */
  lemma ServerUpArrives(b: Board, p: Params, before: seq<Byte>)
    requires |before| == SERIAL_BUFF_SIZE
    ensures var after := Received(b, [SERVER_UP] + StartBuffer(p, before));
            && after.battBoxTemp == b.battBoxTemp && after.serverUp
            && (Agrees(after, p) <==> AllFit16(p))
  {
    WordOfBytes(p.engineTempLimit);
    WordOfBytes(p.coolingFanOn);
    WordOfBytes(p.coolingFanOff);
    WordOfBytes(p.blowerEnabled);
    WordOfBytes(p.blower1On);
    WordOfBytes(p.blower2On);
    WordOfBytes(p.blower3On);
  }

  lemma WordOfBytes(x: int)
    ensures Word(LowByte(x), HighByte(x)) == x <==> Fits16(x)
  {
  }

  /** When the controller restarts after a configuration, it hands six of the seven temperatures
      over again; blower 1 gets 32, which is the configured value only by chance. */
  lemma ControllerRestart(b: Board, m: seq<Byte>, before: seq<Byte>, started: seq<Byte>)
    requires |m| >= 36 && |before| == SERIAL_BUFF_SIZE && |started| == SERIAL_BUFF_SIZE
    ensures var configured := Received(b, [SEND_CONFIG2] + ConfigBuffer(m, before));
            var restarted := Received(configured, [SERVER_UP] + StartBuffer(Reloaded(ParamsOf(m)), started));
            && restarted == configured.(blower1Temp := 32, serverUp := true)
            && (restarted.blower1Temp == configured.blower1Temp <==> Word(m[16], m[17]) == 32)
  {
    var configured := Received(b, [SEND_CONFIG2] + ConfigBuffer(m, before));
    ConfigArrives(b, m, before);
    ServerUpArrives(configured, Reloaded(ParamsOf(m)), started);
    StartKeeps(configured, [SERVER_UP] + StartBuffer(Reloaded(ParamsOf(m)), started));
  }

  /** SERVER_UP writes seven temperatures and nothing else but the flag. */
  lemma StartKeeps(b: Board, buff: seq<Byte>)
    requires |buff| == SERIAL_BUFF_SIZE + 1 && buff[0] == SERVER_UP
    ensures var after := Received(b, buff);
            after == b.(engineTempLimit := after.engineTempLimit, fanOnTemp := after.fanOnTemp,
                        fanOffTemp := after.fanOffTemp, blowerEnTemp := after.blowerEnTemp,
                        blower1Temp := after.blower1Temp, blower2Temp := after.blower2Temp,
                        blower3Temp := after.blower3Temp, serverUp := true)
  {
  }

  // ---------- SERVER_UP from the host ----------

  lemma WordIs(lo: Byte, hi: Byte, x: int)
    ensures Word(lo, hi) == x <==> Fits16(x) && lo == LowByte(x) && hi == HighByte(x)
  {
  }

  lemma StartBytesAre(p: Params, text: seq<Byte>)
    requires |text| == SERIAL_BUFF_SIZE
    ensures text[..14] == StartBytes(p)
            <==> && text[0] == LowByte(p.engineTempLimit) && text[1] == HighByte(p.engineTempLimit)
                 && text[2] == LowByte(p.coolingFanOn) && text[3] == HighByte(p.coolingFanOn)
                 && text[4] == LowByte(p.coolingFanOff) && text[5] == HighByte(p.coolingFanOff)
                 && text[6] == LowByte(p.blower1On) && text[7] == HighByte(p.blower1On)
                 && text[8] == LowByte(p.blower2On) && text[9] == HighByte(p.blower2On)
                 && text[10] == LowByte(p.blower3On) && text[11] == HighByte(p.blower3On)
                 && text[12] == LowByte(p.blowerEnabled) && text[13] == HighByte(p.blowerEnabled)
  {
    if text[..14] == StartBytes(p) {
      assert forall k :: 0 <= k < 14 ==> text[k] == StartBytes(p)[k];
    }
  }

  /** Whatever text the host's SERVER_UP sends: the STM32 agrees with the parameters afterwards exactly
      when they fit 16 bits and the text begins with the bytes of the start-up message. */
  lemma ForwardAgreesIff(b: Board, p: Params, text: seq<Byte>)
    requires |text| == SERIAL_BUFF_SIZE
    ensures Agrees(Received(b, [SERVER_UP] + text), p) <==> AllFit16(p) && text[..14] == StartBytes(p)
  {
    StartBytesAre(p, text);
    ForwardedWords(b, text);
    WordIs(text[0], text[1], p.engineTempLimit);
    WordIs(text[2], text[3], p.coolingFanOn);
    WordIs(text[4], text[5], p.coolingFanOff);
    WordIs(text[6], text[7], p.blower1On);
    WordIs(text[8], text[9], p.blower2On);
    WordIs(text[10], text[11], p.blower3On);
    WordIs(text[12], text[13], p.blowerEnabled);
  }

  lemma ForwardedWords(b: Board, text: seq<Byte>)
    requires |text| == SERIAL_BUFF_SIZE
    ensures var after := Received(b, [SERVER_UP] + text);
            && after.engineTempLimit == Word(text[0], text[1]) && after.fanOnTemp == Word(text[2], text[3])
            && after.fanOffTemp == Word(text[4], text[5]) && after.blower1Temp == Word(text[6], text[7])
            && after.blower2Temp == Word(text[8], text[9]) && after.blower3Temp == Word(text[10], text[11])
            && after.blowerEnTemp == Word(text[12], text[13])
  {
    var buff := [SERVER_UP] + text;
    assert forall k :: 0 <= k < SERIAL_BUFF_SIZE ==> buff[k + 1] == text[k];
  }

  /** The text "cmd: 63 " that the host task prints for a SERVER_UP command. */
  const ANNOUNCEMENT: seq<Byte> := [0x63, 0x6D, 0x64, 0x3A, 0x20, 0x36, 0x33, 0x20]

  /** SERVER_UP from the host sends that text as temperatures: the fan's thresholds become 14948
      and 13856, far above anything the sensor can report. */
  lemma TextAsThresholds(b: Board, tempx: seq<Byte>)
    requires |tempx| == SERIAL_BUFF_SIZE && ANNOUNCEMENT <= tempx
    ensures var after := Received(b, [SERVER_UP] + tempx);
            after.engineTempLimit == 28003 && after.fanOnTemp == 14948 && after.fanOffTemp == 13856
            && after.blower1Temp == 8243
  {
    var buff := [SERVER_UP] + tempx;
    assert tempx[..8] == ANNOUNCEMENT;
    assert forall k :: 0 <= k < 8 ==> buff[k + 1] == tempx[..8][k];
    assert buff[1] == 0x63 && buff[2] == 0x6D && buff[3] == 0x64 && buff[4] == 0x3A;
    assert buff[5] == 0x20 && buff[6] == 0x36 && buff[7] == 0x33 && buff[8] == 0x20;
  }

  // ---------- an STM32 that restarts ----------

  /** The thresholds an STM32 is compiled with. */
  predicate CompiledIn(b: Board) {
    && b.engineTempLimit == 190 && b.fanOnTemp == 175 && b.fanOffTemp == 150 && b.blowerEnTemp == 70
    && b.blower1Temp == 65 && b.blower2Temp == 55 && b.blower3Temp == 45 && b.battBoxTemp == 75
  }

  function ReceivedAll(b: Board, buffs: seq<seq<Byte>>): Board
    requires forall k :: 0 <= k < |buffs| ==> |buffs[k]| == SERIAL_BUFF_SIZE + 1
    decreases |buffs|
  {
    if buffs == [] then b else ReceivedAll(Received(b, buffs[0]), buffs[1..])
  }

  /** A restarted STM32 keeps the thresholds it is compiled with until the controller sends a
      configuration or SERVER_UP, whatever else it sends. */
  lemma {:induction false} UntilConfigured(b: Board, buffs: seq<seq<Byte>>)
    requires CompiledIn(b)
    requires forall k :: 0 <= k < |buffs| ==>
               |buffs[k]| == SERIAL_BUFF_SIZE + 1 && buffs[k][0] != SERVER_UP && buffs[k][0] != SEND_CONFIG2
    ensures CompiledIn(ReceivedAll(b, buffs))
    decreases |buffs|
  {
    if buffs != [] {
      UntilConfigured(Received(b, buffs[0]), buffs[1..]);
    }
  }

  // ---------- the switches after any messages ----------

  /** What the last message says that says anything; `before` if none does. */
  function LastSaid(buffs: seq<seq<Byte>>, on: set<Byte>, off: set<Byte>, before: bool): bool
    requires forall k :: 0 <= k < |buffs| ==> |buffs[k]| == SERIAL_BUFF_SIZE + 1
    decreases |buffs|
  {
    if buffs == [] then before
    else
      var n := |buffs| - 1;
      if buffs[n][0] in on then true
      else if buffs[n][0] in off then false
      else LastSaid(buffs[..n], on, off, before)
  }

  lemma {:induction false} ReceivedLast(b: Board, buffs: seq<seq<Byte>>, buff: seq<Byte>)
    requires forall k :: 0 <= k < |buffs| ==> |buffs[k]| == SERIAL_BUFF_SIZE + 1
    requires |buff| == SERIAL_BUFF_SIZE + 1
    ensures ReceivedAll(b, buffs + [buff]) == Received(ReceivedAll(b, buffs), buff)
    decreases |buffs|
  {
    if buffs == [] {
      assert buffs + [buff] == [buff] && [buff][1..] == [];
    } else {
      assert (buffs + [buff])[1..] == buffs[1..] + [buff];
      ReceivedLast(Received(b, buffs[0]), buffs[1..], buff);
    }
  }

  lemma OneSaid(b: Board, buff: seq<Byte>)
    requires |buff| == SERIAL_BUFF_SIZE + 1
    ensures
      var t := Received(b, buff);
      && t.fanOn == (if buff[0] == ON_FAN then true else if buff[0] == OFF_FAN then false else b.fanOn)
      && t.engineOn == (if buff[0] == START_SEQ then true
                        else if buff[0] == SHUTDOWN || buff[0] == ESTOP_SIGNAL then false else b.engineOn)
      && t.serverUp == (if buff[0] == SERVER_UP then true else if buff[0] == SERVER_DOWN then false else b.serverUp)
      && t.blowerOnCountdown == (if buff[0] == START_SEQ then 5 else b.blowerOnCountdown)
  {
  }

  /** After any messages, fan, engine and server are as the last message says that concerns them. */
  lemma {:induction false} SwitchesHold(b: Board, buffs: seq<seq<Byte>>)
    requires forall k :: 0 <= k < |buffs| ==> |buffs[k]| == SERIAL_BUFF_SIZE + 1
    ensures
      var t := ReceivedAll(b, buffs);
      && t.fanOn == LastSaid(buffs, {ON_FAN}, {OFF_FAN}, b.fanOn)
      && t.engineOn == LastSaid(buffs, {START_SEQ}, {SHUTDOWN, ESTOP_SIGNAL}, b.engineOn)
      && t.serverUp == LastSaid(buffs, {SERVER_UP}, {SERVER_DOWN}, b.serverUp)
    decreases |buffs|
  {
    hide Received;
    if buffs != [] {
      var n := |buffs| - 1;
      assert buffs == buffs[..n] + [buffs[n]];
      ReceivedLast(b, buffs[..n], buffs[n]);
      SwitchesHold(b, buffs[..n]);
      OneSaid(ReceivedAll(b, buffs[..n]), buffs[n]);
    }
  }

  // ---------- the host's message, field by field ----------

  /** A message whose words are the parameters in the host's order. */
  function Words(ws: seq<int>): (bs: seq<Byte>)
    requires forall k :: 0 <= k < |ws| ==> Fits16(ws[k])
    ensures |bs| == 2 * |ws|
  {
    if ws == [] then [] else [LowByte(ws[0]), HighByte(ws[0])] + Words(ws[1..])
  }

  lemma {:induction false} WordAt(ws: seq<int>, k: nat)
    requires (forall j :: 0 <= j < |ws| ==> Fits16(ws[j])) && k < |ws|
    ensures Word(Words(ws)[2 * k], Words(ws)[2 * k + 1]) == ws[k]
  {
    if k == 0 {
      WordOfBytes(ws[0]);
    } else {
      WordAt(ws[1..], k - 1);
      assert Words(ws)[2 * k] == Words(ws[1..])[2 * (k - 1)];
      assert Words(ws)[2 * k + 1] == Words(ws[1..])[2 * (k - 1) + 1];
    }
  }

  /** The parameters in the order of the message. */
  function Listed(p: Params): (ws: seq<int>)
    ensures |ws| == 17
  {
    [p.rpmMphUpdateRate, p.fpgaXmitRate, p.highRevLimit, p.lowRevLimit, p.coolingFanOn, p.coolingFanOff,
     p.blowerEnabled, p.blower1On, p.blower2On, p.blower3On, p.lightsOnDelay, p.engineTempLimit, p.battBoxTemp,
     p.testBank, p.passwordTimeout, p.passwordRetries, p.baudrate3]
  }

  /** A message that lists parameters of 16 bits, low byte first, sets exactly these. */
  lemma ConfigRoundTrip(p: Params, cmd: Byte, other: Byte)
    requires forall k :: 0 <= k < 17 ==> Fits16(Listed(p)[k])
    ensures ParamsOf([cmd, other] + Words(Listed(p))) == p
  {
    var ws, m := Listed(p), [cmd, other] + Words(Listed(p));
    forall k: nat | k < 17 ensures Carried(m, k) == ws[k] {
      WordAt(ws, k);
    }
    ParamsAre(p, m);
  }

  /** The k-th word of a message, behind its first two bytes. */
  function Carried(m: seq<Byte>, k: nat): nat
    requires 2 * k + 3 < |m|
  {
    Word(m[2 * k + 2], m[2 * k + 3])
  }

  lemma ParamsAre(p: Params, m: seq<Byte>)
    requires |m| == 36 && forall k: nat :: k < 17 ==> Carried(m, k) == Listed(p)[k]
    ensures ParamsOf(m) == p
  {
    assert ParamsOf(m) == Params(
      Carried(m, 0), Carried(m, 1), Carried(m, 2), Carried(m, 3), Carried(m, 4), Carried(m, 5), Carried(m, 6),
      Carried(m, 7), Carried(m, 8), Carried(m, 9), Carried(m, 10), Carried(m, 11), Carried(m, 12),
      Carried(m, 13), Carried(m, 14), Carried(m, 15), Carried(m, 16));
  }
}
