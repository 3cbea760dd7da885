// The frames that XMEGA/main.c receives for the displays.

module Display {
  import opened Bcd

  type Byte = b: int | 0 <= b < 0x100

  const MARKER: Byte := 0xFF

  /** The statics of main.c; `digit` counts the bytes of the frame seen so far. */
  datatype State = State(
    digit: nat, rpm: Word, mph: Word, rpm2: Word, mph2: Word, cmd: Byte, cmd2: Byte,
    doneRpm: bool, doneMph: bool, doneCmd: bool)

  /** While a low byte waits for its high byte, it is alone in its variable. */
  predicate Valid(s: State) {
    (s.digit == 1 ==> s.rpm < 0x100) && (s.digit == 3 ==> s.mph < 0x100)
  }

  /** `word |= high << 8`, where word holds a low byte. */
  function OrHigh(low: Word, high: Byte): Word
    requires low < 0x100
  {
    low + 0x100 * high
  }

  /** USARTC0_RXC_vect */
  function Receive(s: State, ch: Byte): (t: State)
    requires Valid(s)
    ensures Valid(t)
  {
    if ch == MARKER then s.(digit := 0, rpm := 0, mph := 0)
    else
      match s.digit
      case 0 => s.(digit := 1, rpm := ch)
      case 1 =>
        var rpm := OrHigh(s.rpm, ch);
        if rpm != s.rpm2 then s.(digit := 2, rpm := 0, rpm2 := rpm, doneRpm := true) else s.(digit := 2, rpm := rpm)
      case 2 => s.(digit := 3, mph := ch)
      case 3 =>
        var mph := OrHigh(s.mph, ch);
        if mph != s.mph2 then s.(digit := 4, mph := 0, mph2 := mph, doneMph := true) else s.(digit := 4, mph := mph)
      case 4 =>
        if ch != s.cmd2 then s.(digit := 5, cmd := ch, cmd2 := ch, doneCmd := true) else s.(digit := 5, cmd := ch)
      case _ => s
  }

  function ReceiveAll(s: State, bytes: seq<Byte>): (t: State)
    requires Valid(s)
    ensures Valid(t)
    decreases |bytes|
  {
    if bytes == [] then s else Receive(ReceiveAll(s, bytes[..|bytes| - 1]), bytes[|bytes| - 1])
  }

  class Speedometer {
    var digit: nat
    var rpm: Word
    var mph: Word
    var rpm2: Word
    var mph2: Word
    var cmd: Byte
    var cmd2: Byte
    var doneRpm: bool
    var doneMph: bool
    var doneCmd: bool

    ghost function View(): State
      reads this
    {
      State(digit, rpm, mph, rpm2, mph2, cmd, cmd2, doneRpm, doneMph, doneCmd)
    }

    method ReceiveByte(ch: Byte)
      requires Valid(View())
      modifies this
      ensures View() == Receive(old(View()), ch)
    {
      if ch == MARKER {
        digit, rpm, mph := 0, 0, 0;
      } else {
        match digit {
          case 0 =>
            digit := 1;
            rpm := ch;
          case 1 =>
            digit := 2;
            rpm := OrHigh(rpm, ch);
            if rpm != rpm2 {
              rpm2 := rpm;
              doneRpm := true;
              rpm := 0;
            }
          case 2 =>
            digit := 3;
            mph := ch;
          case 3 =>
            digit := 4;
            mph := OrHigh(mph, ch);
            if mph != mph2 {
              mph2 := mph;
              doneMph := true;
              mph := 0;
            }
          case 4 =>
            digit := 5;
            cmd := ch;
            if cmd != cmd2 {
              cmd2 := cmd;
              doneCmd := true;
            }
          case _ =>
        }
      }
    }

    /** TCC0_OVF_vect: what it sends to the display of the revolutions and to that of the speed. */
    method TimerOverflow() returns (revs: seq<int>, speed: seq<int>)
      modifies this
      ensures View() == old(View()).(doneRpm := false, doneMph := false, doneCmd := false)
      ensures if old(doneRpm) then
                |revs| >= |Brightness(old(View()))| && Shows(revs[..|revs| - |Brightness(old(View()))|], old(rpm2))
              else revs == Brightness(old(View()))
      ensures if old(doneMph) then
                |speed| >= |Brightness(old(View()))| && Shows(speed[..|speed| - |Brightness(old(View()))|], old(mph2))
              else speed == Brightness(old(View()))
    {
      revs, speed := [], [];
      if doneRpm {
        revs := ProcessDigits(rpm2);
        doneRpm := false;
      }
      if doneMph {
        speed := ProcessDigits(mph2);
        doneMph := false;
      }
      ghost var shown := revs;
      ghost var shownSpeed := speed;
      if doneCmd {
        revs := revs + [BRIGHT, cmd];
        speed := speed + [BRIGHT, cmd];
        assert revs[..|revs| - 2] == shown && speed[..|speed| - 2] == shownSpeed;
        doneCmd := false;
      } else {
        assert revs[..|revs|] == shown && speed[..|speed|] == shownSpeed;
      }
    }
  }

  const BRIGHT := 0x7A

  /** The brightness command, sent when a new one has arrived. */
  function Brightness(s: State): seq<int> {
    if s.doneCmd then [BRIGHT, s.cmd] else []
  }

  // ---------- frames ----------

  lemma ReceiveNext(s: State, bytes: seq<Byte>, ch: Byte)
    requires Valid(s)
    ensures ReceiveAll(s, bytes + [ch]) == Receive(ReceiveAll(s, bytes), ch)
  {
    assert (bytes + [ch])[..|bytes|] == bytes;
  }

  lemma {:induction false} ReceiveMore(s: State, bytes: seq<Byte>, more: seq<Byte>)
    requires Valid(s)
    ensures ReceiveAll(s, bytes + more) == ReceiveAll(ReceiveAll(s, bytes), more)
    decreases |more|
  {
    if more == [] {
      assert bytes + more == bytes;
    } else {
      var n := |more| - 1;
      assert bytes + more == (bytes + more[..n]) + [more[n]];
      ReceiveNext(s, bytes + more[..n], more[n]);
      ReceiveMore(s, bytes, more[..n]);
    }
  }

  /** A complete frame none of whose bytes is the marker: its three values are stored, and the
      ones that are new are flagged for the timer. */
  predicate Stored(s: State, t: State, rpm: Word, mph: Word, cmd: Byte) {
    && t.rpm2 == rpm && t.mph2 == mph && t.cmd2 == cmd && t.digit == 5
    && (t.doneRpm <==> s.doneRpm || s.rpm2 != rpm) && (t.doneMph <==> s.doneMph || s.mph2 != mph)
    && (t.doneCmd <==> s.doneCmd || s.cmd2 != cmd)
  }

  function Frame(a: Byte, b: Byte, c: Byte, d: Byte, e: Byte): seq<Byte> {
    [MARKER, a, b, c, d, e]
  }

  /** Bytes that a frame can carry. */
  predicate Plain(a: Byte, b: Byte, c: Byte, d: Byte, e: Byte) {
    a != MARKER && b != MARKER && c != MARKER && d != MARKER && e != MARKER
  }

  lemma RpmPair(s: State, a: Byte, b: Byte)
    requires Valid(s) && a != MARKER && b != MARKER && s.digit == 0
    ensures var t := Receive(Receive(s, a), b);
            && t.digit == 2 && t.rpm2 == a + 0x100 * b && (t.doneRpm <==> s.doneRpm || s.rpm2 != a + 0x100 * b)
            && t.mph2 == s.mph2 && t.cmd2 == s.cmd2 && t.doneMph == s.doneMph && t.doneCmd == s.doneCmd
  {
  }

  lemma MphPair(s: State, c: Byte, d: Byte)
    requires Valid(s) && c != MARKER && d != MARKER && s.digit == 2
    ensures var t := Receive(Receive(s, c), d);
            && t.digit == 4 && t.mph2 == c + 0x100 * d && (t.doneMph <==> s.doneMph || s.mph2 != c + 0x100 * d)
            && t.rpm2 == s.rpm2 && t.cmd2 == s.cmd2 && t.doneRpm == s.doneRpm && t.doneCmd == s.doneCmd
  {
  }

  lemma FrameDecoded(s: State, a: Byte, b: Byte, c: Byte, d: Byte, e: Byte)
    requires Valid(s) && Plain(a, b, c, d, e)
    ensures Stored(s, ReceiveAll(s, Frame(a, b, c, d, e)), a + 0x100 * b, c + 0x100 * d, e)
  {
    var start := Receive(s, MARKER);
    var revs := Receive(Receive(start, a), b);
    SixBytes(s, MARKER, a, b, c, d, e);
    RpmPair(start, a, b);
    MphPair(revs, c, d);
  }

  lemma SixBytes(s: State, m: Byte, a: Byte, b: Byte, c: Byte, d: Byte, e: Byte)
    requires Valid(s)
    ensures ReceiveAll(s, [m, a, b, c, d, e])
            == Receive(Receive(Receive(Receive(Receive(Receive(s, m), a), b), c), d), e)
  {
    FourBytes(s, m, a, b, c);
    assert [m, a, b, c] + [d] == [m, a, b, c, d] && [m, a, b, c, d] + [e] == [m, a, b, c, d, e];
    ReceiveNext(s, [m, a, b, c], d);
    ReceiveNext(s, [m, a, b, c, d], e);
  }

  lemma FourBytes(s: State, a: Byte, b: Byte, c: Byte, d: Byte)
    requires Valid(s)
    ensures ReceiveAll(s, [a, b, c, d]) == Receive(Receive(Receive(Receive(s, a), b), c), d)
  {
    assert [] + [a] == [a] && [a] + [b] == [a, b] && [a, b] + [c] == [a, b, c] && [a, b, c] + [d] == [a, b, c, d];
    ReceiveNext(s, [], a);
    ReceiveNext(s, [a], b);
    ReceiveNext(s, [a, b], c);
    ReceiveNext(s, [a, b, c], d);
  }

  /** Behind a complete frame nothing happens until the next marker. */
  lemma {:induction false} TailIgnored(s: State, tail: seq<Byte>)
    requires Valid(s) && s.digit == 5 && MARKER !in tail
    ensures ReceiveAll(s, tail) == s
    decreases |tail|
  {
    if tail != [] {
      TailIgnored(s, tail[..|tail| - 1]);
    }
  }

  /** Main result.  Whatever came before, and whatever but a marker comes after, the display
      holds the values of the last complete frame. */
  lemma LastFrameWins(s: State, junk: seq<Byte>, a: Byte, b: Byte, c: Byte, d: Byte, e: Byte, tail: seq<Byte>)
    requires Valid(s) && Plain(a, b, c, d, e) && MARKER !in tail
    ensures Stored(ReceiveAll(s, junk), ReceiveAll(s, junk + Frame(a, b, c, d, e) + tail),
                   a + 0x100 * b, c + 0x100 * d, e)
  {
    var t := ReceiveAll(s, junk);
    FrameDecoded(t, a, b, c, d, e);
    TailIgnored(ReceiveAll(t, Frame(a, b, c, d, e)), tail);
    ReceiveMore(s, junk, Frame(a, b, c, d, e));
    ReceiveMore(s, junk + Frame(a, b, c, d, e), tail);
  }

  /** A byte moves the frame on by one at most; only the fifth byte reaches the command. */
  lemma OneByte(s: State, ch: Byte)
    requires Valid(s)
    ensures var t := Receive(s, ch);
            && t.digit <= s.digit + 1 && (ch == MARKER ==> t.digit == 0) && (t.digit < 5 ==> t.cmd2 == s.cmd2)
  {
  }

  lemma FrameBroken(s: State, a: Byte, b: Byte, c: Byte, d: Byte, e: Byte)
    requires Valid(s) && !Plain(a, b, c, d, e)
    ensures var t := ReceiveAll(s, Frame(a, b, c, d, e)); t.digit < 5 && t.cmd2 == s.cmd2
  {
    var s0 := Receive(s, MARKER);
    var s1 := Receive(s0, a);
    var s2 := Receive(s1, b);
    var s3 := Receive(s2, c);
    var s4 := Receive(s3, d);
    SixBytes(s, MARKER, a, b, c, d, e);
    OneByte(s, MARKER);
    OneByte(s0, a);
    OneByte(s1, b);
    OneByte(s2, c);
    OneByte(s3, d);
    OneByte(s4, e);
  }

  /** The exact condition: a frame is stored exactly when none of its five bytes is 0xFF.  With a
      command that is new, not even the three values arrive otherwise. */
  lemma StoredIffPlain(s: State, a: Byte, b: Byte, c: Byte, d: Byte, e: Byte)
    requires Valid(s)
    ensures var t := ReceiveAll(s, Frame(a, b, c, d, e));
            && (Stored(s, t, a + 0x100 * b, c + 0x100 * d, e) <==> Plain(a, b, c, d, e))
            && (s.cmd2 != e ==>
                  (t.rpm2 == a + 0x100 * b && t.mph2 == c + 0x100 * d && t.cmd2 == e <==> Plain(a, b, c, d, e)))
  {
    if Plain(a, b, c, d, e) {
      FrameDecoded(s, a, b, c, d, e);
    } else {
      FrameBroken(s, a, b, c, d, e);
    }
  }

  /** What a first byte 0xFF does: it starts a new frame, and the bytes behind it are taken for
      other values. */
  lemma MarkerInFrame(s: State, b: Byte, c: Byte, d: Byte, e: Byte)
    requires Valid(s) && Plain(b, c, d, e, e)
    ensures var t := ReceiveAll(s, Frame(MARKER, b, c, d, e));
            t.rpm2 == b + 0x100 * c && t.mph2 == d + 0x100 * e && t.cmd2 == s.cmd2
  {
    var start := Receive(Receive(s, MARKER), MARKER);
    SixBytes(s, MARKER, MARKER, b, c, d, e);
    RpmPair(start, b, c);
    MphPair(Receive(Receive(start, b), c), d, e);
  }
}
