// START_SEQ across its pauses: when the two writes of the simulated starter input drive the starter.

module EngineStart {
  import opened Bits
  import opened Relays
  import opened Records
  import opened Engine
  import opened EngineSteps
  import opened EngineInputs
  import EngineSafety

  const STARTER_BANK := 0

  /** A scan has seen what was last written to the starter's bank. */
  predicate Settled(s: State)
    requires Shape(s)
  {
    s.fake1[STARTER_BANK] == s.fake2[STARTER_BANK]
  }

  /** A state as the runs reach it. */
  predicate Sound(s: State) {
    Indexed(s) && forall p: nat :: p < NUM_DATA_RECS ==> PortInv(s, p)
  }

  lemma SoundNext(s: State, e: Event)
    requires Sound(s) && Legal(e)
    ensures Sound(Next(s, e))
  {
    var t := Next(s, e);
    forall p: nat | p < NUM_DATA_RECS ensures PortInv(t, p) && t.recs[p].inputPort == s.recs[p].inputPort {
      NextPort(s, e, p);
    }
    NextPort(s, e, 0);
    IndexStable(s.recs, t.recs, CELLS);
  }

  /** The control task and the engine's running flag. */
  predicate SameControl(s: State, t: State) {
    t.control == s.control && t.engineRunning == s.engineRunning
  }

  lemma {:induction false} DriveControl(s: State, ip: seq<Ip>, input: nat, onoff: Uchar)
    requires Shape(s) && forall j :: 0 <= j < |ip| ==> ip[j].port < NUM_DATA_RECS
    ensures SameControl(s, Drive(s, ip, input, onoff))
    decreases |ip|
  {
    if ip != [] {
      DriveControl(if ip[0].input == input then SetOutput(s, ip[0].port, onoff) else s, ip[1..], input, onoff);
    }
  }

  lemma ScanControl(s: State, bank: nat, mask: Byte, result: Byte)
    requires Shape(s) && bank < NUM_PORTS
    ensures SameControl(s, FakeChanged(s, bank, mask, result))
  {
    DriveControl(s, s.ip, ChangedInput(bank, mask), ChangedState(mask, result));
  }

  lemma SameByte(b: Byte, on: bool)
    requires BitOn(b, 5) == on
    ensures SetBit(b, 5, on) == b && b ^ b == 0
  {
    MaskCases(5);
  }

  lemma FlippedByte(b: Byte, on: bool)
    requires BitOn(b, 5) != on
    ensures var r := SetBit(b, 5, on); r ^ b == Mask(5) && Rewritten(Mask(5), r) == r && BitOn(r, 5) == on
  {
    MaskCases(5);
    FlipReads(b, 5, on);
  }

  /** A scan that finds the starter's bit changed, to what the byte `result` says. */
  lemma FlipScan(s: State, result: Byte, on: bool, p: nat)
    requires Indexed(s) && p < NUM_DATA_RECS && BitOn(result, 5) == on && Rewritten(Mask(5), result) == result
    ensures
      var t := FakeChanged(s, STARTER_BANK, Mask(5), result);
      && t.fake1[STARTER_BANK] == t.fake2[STARTER_BANK] == result && SameControl(s, t)
      && DrivenOrKept(s, t, p, s.recs[p].inputPort == STARTER_INPUT, if on then 1 else 0)
  {
    SingleBitMask(5, result);
    ScanControl(s, STARTER_BANK, Mask(5), result);
    FakeReachesAssigned(s, STARTER_BANK, Mask(5), result, 5, p);
  }

  /** What a scan makes of the starter's bit: p's set_output if the bit changed, and a settled bank. */
  predicate Scanned(s: State, t: State, b: Byte, on: bool, p: nat)
    requires Shape(s) && Shape(t) && p < NUM_DATA_RECS
  {
    && t.fake1[STARTER_BANK] == t.fake2[STARTER_BANK] == SetBit(b, 5, on) && SameControl(s, t)
    && DrivenOrKept(s, t, p, BitOn(b, 5) != on && s.recs[p].inputPort == STARTER_INPUT, if on then 1 else 0)
  }

  lemma ScanIs(s: State, mask: Byte, result: Byte)
    requires Shape(s) && s.fake2[STARTER_BANK] == result && result ^ s.fake1[STARTER_BANK] == mask
    ensures FakeScan(s, STARTER_BANK) == FakeChanged(s, STARTER_BANK, mask, result)
  {
  }

  lemma ScanOf(s: State, b: Byte, on: bool, p: nat)
    requires Indexed(s) && p < NUM_DATA_RECS
    requires s.fake1[STARTER_BANK] == b && s.fake2[STARTER_BANK] == SetBit(b, 5, on)
    ensures Scanned(s, FakeScan(s, STARTER_BANK), b, on, p)
  {
    if BitOn(b, 5) == on {
      ScanKept(s, b, on, p);
    } else {
      FlippedByte(b, on);
      ScanFlipped(s, b, SetBit(b, 5, on), on, p);
    }
  }

  lemma ScanKept(s: State, b: Byte, on: bool, p: nat)
    requires Shape(s) && p < NUM_DATA_RECS && BitOn(b, 5) == on
    requires s.fake1[STARTER_BANK] == b && s.fake2[STARTER_BANK] == SetBit(b, 5, on)
    ensures Scanned(s, FakeScan(s, STARTER_BANK), b, on, p)
  {
    SameByte(b, on);
    SettledScan(s);
    NothingDriven(s, p, if on then 1 else 0);
  }

  lemma ScanFlipped(s: State, b: Byte, result: Byte, on: bool, p: nat)
    requires Indexed(s) && p < NUM_DATA_RECS && BitOn(b, 5) != on
    requires s.fake1[STARTER_BANK] == b && s.fake2[STARTER_BANK] == result && result == SetBit(b, 5, on)
    requires result ^ b == Mask(5) && Rewritten(Mask(5), result) == result && BitOn(result, 5) == on
    ensures Scanned(s, FakeScan(s, STARTER_BANK), b, on, p)
  {
    ScanIs(s, Mask(5), result);
    FlipScan(s, result, on, p);
  }

  lemma NothingDriven(s: State, p: nat, onoff: Uchar)
    requires Shape(s) && p < NUM_DATA_RECS
    ensures DrivenOrKept(s, s, p, false, onoff) && SameControl(s, s)
  {
  }

  /** Scanning a settled bank does nothing. */
  lemma SettledScan(s: State)
    requires Shape(s) && Settled(s)
    ensures FakeScan(s, STARTER_BANK) == s
  {
  }

  function Scans(n: nat): seq<Event> {
    if n == 0 then [] else [FakeInputs(STARTER_BANK)] + Scans(n - 1)
  }

  lemma {:induction false} ScansLegal(n: nat)
    ensures AllLegal(Scans(n))
  {
    if n > 0 {
      ScansLegal(n - 1);
    }
  }

  lemma ExecFirst(s: State, e: Event, es: seq<Event>)
    requires Shape(s) && Legal(e) && AllLegal(es)
    ensures AllLegal([e] + es) && Exec(s, [e] + es) == Exec(Next(s, e), es)
  {
    assert ([e] + es)[1..] == es;
  }

  lemma {:induction false} SettledScans(s: State, n: nat)
    requires Shape(s) && Settled(s)
    ensures AllLegal(Scans(n)) && Exec(s, Scans(n)) == s
  {
    ScansLegal(n);
    if n > 0 {
      SettledScan(s);
      SettledScans(s, n - 1);
      ExecFirst(s, FakeInputs(STARTER_BANK), Scans(n - 1));
    }
  }

  /** Of n scans in a row the first one does it all. */
  lemma ScansOnce(s: State, n: nat)
    requires Shape(s) && Settled(FakeScan(s, STARTER_BANK))
    ensures AllLegal(Scans(n)) && Exec(s, Scans(n)) == if n == 0 then s else FakeScan(s, STARTER_BANK)
  {
    ScansLegal(n);
    if n > 0 {
      SettledScans(FakeScan(s, STARTER_BANK), n - 1);
      ExecFirst(s, FakeInputs(STARTER_BANK), Scans(n - 1));
    }
  }

  /** The rest of START_SEQ with n scans of the starter's bank in its last pause, and one afterwards. */
  function AfterStart(s: State, n: nat): (t: State)
    requires Shape(s)
    ensures Shape(t)
  {
    ScansLegal(n);
    FakeScan(Dispatch(Exec(Dispatch(s), Scans(n))), STARTER_BANK)
  }

  lemma StartedIsRun(s: State, n: nat)
    requires Shape(s)
    ensures AllLegal([Serve] + (Scans(n) + [Serve, FakeInputs(STARTER_BANK)]))
    ensures Exec(s, [Serve] + (Scans(n) + [Serve, FakeInputs(STARTER_BANK)])) == AfterStart(s, n)
  {
    ScansLegal(n);
    var last := [Serve, FakeInputs(STARTER_BANK)];
    ExecFirst(s, Serve, Scans(n) + last);
    ExecAll(Dispatch(s), Scans(n), last);
    ExecLast(Exec(Dispatch(s), Scans(n)));
  }

  lemma ExecLast(s: State)
    requires Shape(s)
    ensures Exec(s, [Serve, FakeInputs(STARTER_BANK)]) == FakeScan(Dispatch(s), STARTER_BANK)
  {
    var scan := [FakeInputs(STARTER_BANK)];
    assert [Serve, FakeInputs(STARTER_BANK)] == [Serve] + scan && scan == scan + [];
    ExecFirst(s, Serve, scan);
    ExecFirst(Dispatch(s), FakeInputs(STARTER_BANK), []);
  }

  lemma {:induction false} ExecAll(s: State, es: seq<Event>, fs: seq<Event>)
    requires Shape(s) && AllLegal(es) && AllLegal(fs)
    ensures Exec(s, es + fs) == Exec(Exec(s, es), fs)
    decreases es
  {
    if es == [] {
      assert es + fs == fs;
    } else {
      assert (es + fs)[1..] == es[1..] + fs;
      ExecAll(Next(s, es[0]), es[1..], fs);
    }
  }

  // ---------- what the starter gets ----------

  /** The two writes; the bank was last scanned at `b`. */
  lemma ReleasedByte(s: State)
    requires Shape(s) && s.control.ReleasingStarter?
    ensures var t := Dispatch(s);
            && t.fake1 == s.fake1 && t.fake2[STARTER_BANK] == SetBit(s.fake2[STARTER_BANK], 5, false)
            && t.recs == s.recs && t.out == s.out && t.control.PressingStarter?
  {
    assert Bank(STARTER_INPUT) == STARTER_BANK && Index(STARTER_INPUT) == 5;
  }

  lemma PressedByte(s: State)
    requires Shape(s) && s.control.PressingStarter?
    ensures var t := Dispatch(s);
            && t.fake1 == s.fake1 && t.fake2[STARTER_BANK] == SetBit(s.fake2[STARTER_BANK], 5, true)
            && t.recs == s.recs && t.out == s.out && t.control.Ready? && t.engineRunning
  {
    assert Bank(STARTER_INPUT) == STARTER_BANK && Index(STARTER_INPUT) == 5;
  }

  lemma WrittenTwice(b: Byte)
    ensures SetBit(SetBit(b, 5, false), 5, true) == SetBit(b, 5, true) && !BitOn(SetBit(b, 5, false), 5)
  {
    MaskCases(5);
  }

  /** The second write and the scan behind it, when the bank was last scanned at c. */
  lemma Pressed(s: State, c: Byte, p: nat)
    requires Sound(s) && s.control.PressingStarter? && p < NUM_DATA_RECS
    requires s.fake1[STARTER_BANK] == c && SetBit(s.fake2[STARTER_BANK], 5, true) == SetBit(c, 5, true)
    ensures
      var t := FakeScan(Dispatch(s), STARTER_BANK);
      && t.control.Ready? && t.engineRunning && Settled(t)
      && DrivenOrKept(s, t, p, !BitOn(c, 5) && s.recs[p].inputPort == STARTER_INPUT, 1)
  {
    SoundNext(s, Serve);
    PressedByte(s);
    ScanOf(Dispatch(s), c, true, p);
    Rebased(s, Dispatch(s), FakeScan(Dispatch(s), STARTER_BANK), p,
            !BitOn(c, 5) && s.recs[p].inputPort == STARTER_INPUT, 1);
  }

  lemma Rebased(s: State, t: State, u: State, p: nat, listed: bool, onoff: Uchar)
    requires Shape(s) && Shape(t) && Shape(u) && p < NUM_DATA_RECS
    requires t.recs == s.recs && t.out == s.out && DrivenOrKept(t, u, p, listed, onoff)
    ensures DrivenOrKept(s, u, p, listed, onoff)
  {
  }

  /** The first write and n scans behind it, in a bank that was settled at b. */
  lemma Released(s: State, n: nat, b: Byte, p: nat)
    requires Sound(s) && s.control.ReleasingStarter? && p < NUM_DATA_RECS
    requires s.fake1[STARTER_BANK] == s.fake2[STARTER_BANK] == b
    ensures AllLegal(Scans(n))
    ensures
      var t := Exec(Dispatch(s), Scans(n));
      && Sound(t) && t.control.PressingStarter? && t.fake2[STARTER_BANK] == SetBit(b, 5, false)
      && t.fake1[STARTER_BANK] == (if n == 0 then b else SetBit(b, 5, false))
      && DrivenOrKept(s, t, p, n > 0 && BitOn(b, 5) && s.recs[p].inputPort == STARTER_INPUT, 0)
  {
    var t := Dispatch(s);
    SoundNext(s, Serve);
    ReleasedByte(s);
    ScanOf(t, b, false, p);
    SoundNext(t, FakeInputs(STARTER_BANK));
    ScansOnce(t, n);
    NothingDriven(t, p, 0);
    Rebased(s, t, Exec(t, Scans(n)), p, n > 0 && BitOn(b, 5) && s.recs[p].inputPort == STARTER_INPUT, 0);
  }

  /** What START_SEQ does to an output of the starter's input, after its relays are on: with the bit
      on before, nothing unless a scan falls into the last pause. */
  lemma StartDrives(s: State, n: nat, p: nat)
    requires Sound(s) && s.control.ReleasingStarter? && Settled(s) && p < NUM_DATA_RECS
    requires s.recs[p].inputPort == STARTER_INPUT
    ensures
      var on, r, t := BitOn(s.fake2[STARTER_BANK], 5), s.recs[p], AfterStart(s, n);
      && t.control.Ready? && t.engineRunning && Settled(t)
      && t.recs[p] == (if !on then OutputRec(r, 1) else if n > 0 then OutputRec(OutputRec(r, 0), 1) else r)
      && (on && n == 0 ==> t.out[p] == s.out[p])
  {
    hide FakeScan, Dispatch, SetBit, FullIndex;
    var b := s.fake2[STARTER_BANK];
    Released(s, n, b, p);
    WrittenTwice(b);
    var t := Exec(Dispatch(s), Scans(n));
    var c := if n == 0 then b else SetBit(b, 5, false);
    Pressed(t, c, p);
    DrivenTwice(s, t, AfterStart(s, n), p, n > 0 && BitOn(b, 5) && s.recs[p].inputPort == STARTER_INPUT,
                !BitOn(c, 5) && t.recs[p].inputPort == STARTER_INPUT);
  }

  lemma DrivenTwice(s: State, t: State, u: State, p: nat, first: bool, second: bool)
    requires Shape(s) && Shape(t) && Shape(u) && p < NUM_DATA_RECS
    requires DrivenOrKept(s, t, p, first, 0) && DrivenOrKept(t, u, p, second, 1)
    ensures
      var r := if first then OutputRec(s.recs[p], 0) else s.recs[p];
      && u.recs[p] == (if second then OutputRec(r, 1) else r)
      && (!first && !second ==> u.out[p] == s.out[p])
  {
  }

  /** Main result: an idle starter with a time limit is triggered exactly when its simulated bit was
      off before, or a scan falls between the two writes. */
  lemma StartCranks(s: State, n: nat, p: nat)
    requires Sound(s) && s.control.ReleasingStarter? && Settled(s) && p < NUM_DATA_RECS
    requires s.recs[p].inputPort == STARTER_INPUT && s.recs[p].kind in {2, 3} && s.recs[p].reset == 0
    ensures AllLegal([Serve] + (Scans(n) + [Serve, FakeInputs(STARTER_BANK)]))
    ensures
      var t := Exec(s, [Serve] + (Scans(n) + [Serve, FakeInputs(STARTER_BANK)]));
      && t.control.Ready? && t.engineRunning
      && (t.recs[p].reset == 1 <==> n > 0 || !BitOn(s.fake2[STARTER_BANK], 5))
      && (t.recs[p].reset == 1 ==> t.recs[p].timeLeft == t.recs[p].timeDelay)
      && (t.recs[p].reset != 1 ==> t.recs[p] == s.recs[p])
  {
    StartedIsRun(s, n);
    StartDrives(s, n, p);
  }
}
