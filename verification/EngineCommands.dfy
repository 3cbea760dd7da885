// What the commands of basic_controls_task do to relays, records and inputs, command by command.

module EngineCommands {
  import opened Bits
  import opened Relays
  import opened Records
  import opened Engine
  import opened EngineSteps
  import opened EngineInputs
  import opened EngineOutputs
  import EngineSafety

  // ---------- the main relays ----------

  /** The commands for the two main relays. */
  predicate SwitchesMain(cmd: Cmd, port: nat, on: bool) {
    || (port == ACCON && (if on then cmd.OnAcc? else cmd.OffAcc?))
    || (port == FUELPUMP && (if on then cmd.OnFuelPump? else cmd.OffFuelPump?))
  }

  /** A main relay is switched on or off exactly while its latch is open, and nothing else moves; the
      fuel pump's record goes with it, the accessories' does not. */
  lemma MainRelaySwitched(s: State, cmd: Cmd, port: nat, on: bool)
    requires Shape(s) && SwitchesMain(cmd, port, on)
    ensures
      var t, open := Command(s, cmd), s.recs[port].reset == 0;
      && t.out == (if open then s.out[port := on] else s.out)
      && t.recs == (if open && port == FUELPUMP then s.recs[port := s.recs[port].(onoff := if on then 1 else 0)]
                    else s.recs)
      && t.fake1 == s.fake1 && t.fake2 == s.fake2 && t.inport == s.inport && t.queue == s.queue
  {
  }

  /** START_SEQ opens both latches and switches both relays on; no other output moves. */
  lemma StartSwitchesOn(s: State, p: nat)
    requires Shape(s) && p < NUM_DATA_RECS
    ensures var t := Command(s, StartSeq);
            if p == ACCON || p == FUELPUMP then t.out[p] && t.recs[p] == s.recs[p].(onoff := 1, reset := 0)
            else t.out[p] == s.out[p] && t.recs[p] == s.recs[p]
  {
  }

  /** SHUTDOWN switches first ACCON and after its pause the fuel pump off, whatever their latches say,
      and leaves those as they are; no other output moves. */
  lemma ShutdownSwitchesOff(s: State, p: nat)
    requires Shape(s) && p < NUM_DATA_RECS
    ensures var t := Command(s, Shutdown);
            && t.control == StoppingPump && !t.engineRunning
            && t.recs[p] == (if p == ACCON then s.recs[p].(onoff := 0) else s.recs[p])
            && t.out[p] == (p != ACCON && s.out[p])
    ensures var t := StopPump(s);
            && t.control == Ready && t.countdown == s.lightsOnDelay
            && t.recs[p] == (if p == FUELPUMP then s.recs[p].(onoff := 0) else s.recs[p])
            && t.out[p] == (p != FUELPUMP && s.out[p])
  {
  }

  // ---------- simulated inputs ----------

  /** The commands that stand for a switch: which input, and on or off. */
  predicate SwitchesInput(cmd: Cmd, input: nat, on: bool) {
    || (input == COOLINGFAN_INPUT && (if on then cmd.OnFan? else cmd.OffFan?))
    || (input == HEADLAMP_INPUT && (if on then cmd.OnLights? else cmd.OffLights?))
    || (input == RUNNING_LIGHTS_INPUT && (if on then cmd.OnRunningLights? else cmd.OffRunningLights?))
    || (input == BRIGHTS_INPUT && (if on then cmd.OnBrights? else cmd.OffBrights?))
    || (input == BRAKE_INPUT && (if on then cmd.OnBrakes? else cmd.OffBrakes?))
    || (input == STARTER_INPUT && (if on then cmd.EnableStart? else cmd.StarterOff?))
    || (input == LEFTBLINKER_INPUT && on && cmd.TestLeftBlinker?)
    || (input == RIGHTBLINKER_INPUT && on && cmd.TestRightBlinker?)
  }

  /** The lamps whose records are written together with the input. */
  predicate WritesRecord(cmd: Cmd, p: nat) {
    || (p == COOLINGFAN && (cmd.OnFan? || cmd.OffFan?))
    || (p in {LHEADLAMP, RHEADLAMP} && (cmd.OnLights? || cmd.OffLights?))
    || (p == RUNNINGLIGHTS && (cmd.OnRunningLights? || cmd.OffRunningLights?))
    || (p in {LBRIGHTS, RBRIGHTS} && (cmd.OnBrights? || cmd.OffBrights?))
  }

  /** From s to t an input's simulated bit is written, port p's record if listed, and no relay. */
  predicate Written(s: State, t: State, input: nat, on: bool, p: nat, listed: bool)
    requires Shape(s) && Shape(t) && input < NUM_DATA_RECS && p < NUM_DATA_RECS
  {
    var bank := Bank(input);
    && t.fake1 == s.fake1 && t.fake2 == s.fake2[bank := SetBit(s.fake2[bank], Index(input), on)]
    && t.out == s.out && t.ip == s.ip
    && t.recs[p] == (if listed then s.recs[p].(onoff := if on then 1 else 0) else s.recs[p])
  }

  lemma LampsWritten(s: State, input: nat, on: bool, a: nat, b: nat, p: nat)
    requires Shape(s) && input < NUM_DATA_RECS && a < NUM_DATA_RECS && b < NUM_DATA_RECS && p < NUM_DATA_RECS
    ensures var v := if on then 1 else 0;
            && Written(s, ChangeInput(s, input, on), input, on, p, false)
            && Written(s, SetOnoff(ChangeInput(s, input, on), a, v), input, on, p, p == a)
            && Written(s, SetOnoff(SetOnoff(ChangeInput(s, input, on), a, v), b, v), input, on, p, p == a || p == b)
  {
    hide SetBit, Bank, Index;
  }

  lemma TestWritten(s: State, cmd: Cmd, input: nat, p: nat)
    requires Shape(s) && (cmd.TestLeftBlinker? || cmd.TestRightBlinker?) && SwitchesInput(cmd, input, true)
    requires p < NUM_DATA_RECS
    ensures Written(s, Command(s, cmd), input, true, p, false)
  {
    hide SetBit, Bank, Index;
  }

  /** The command writes its input's simulated bit, its lamps' records, and no relay. */
  lemma InputWritten(s: State, cmd: Cmd, input: nat, on: bool, p: nat)
    requires Shape(s) && SwitchesInput(cmd, input, on) && p < NUM_DATA_RECS
    ensures Written(s, Command(s, cmd), input, on, p, WritesRecord(cmd, p))
  {
    hide Command, Written;
    if cmd.TestLeftBlinker? || cmd.TestRightBlinker? {
      TestWritten(s, cmd, input, p);
    } else if cmd.OnLights? || cmd.OffLights? || cmd.OnBrights? || cmd.OffBrights? {
      LightsWritten(s, cmd, input, on, p);
    } else if cmd.OnFan? || cmd.OffFan? || cmd.OnRunningLights? || cmd.OffRunningLights? {
      LampAndInput(s, cmd, input, on, p);
    } else {
      InputAlone(s, cmd, input, on, p);
    }
  }

  lemma LightsWritten(s: State, cmd: Cmd, input: nat, on: bool, p: nat)
    requires Shape(s) && SwitchesInput(cmd, input, on) && p < NUM_DATA_RECS
    requires cmd.OnLights? || cmd.OffLights? || cmd.OnBrights? || cmd.OffBrights?
    ensures Written(s, Command(s, cmd), input, on, p, WritesRecord(cmd, p))
  {
    hide Written, ChangeInput, SetOnoff;
    if cmd.OnLights? || cmd.OffLights? {
      LampsWritten(s, HEADLAMP_INPUT, on, LHEADLAMP, RHEADLAMP, p);
    } else {
      LampsWritten(s, BRIGHTS_INPUT, on, LBRIGHTS, RBRIGHTS, p);
    }
  }

  lemma LampAndInput(s: State, cmd: Cmd, input: nat, on: bool, p: nat)
    requires Shape(s) && SwitchesInput(cmd, input, on) && p < NUM_DATA_RECS
    requires cmd.OnFan? || cmd.OffFan? || cmd.OnRunningLights? || cmd.OffRunningLights?
    ensures Written(s, Command(s, cmd), input, on, p, WritesRecord(cmd, p))
  {
    hide Written, ChangeInput, SetOnoff;
    if cmd.OnFan? || cmd.OffFan? {
      LampsWritten(s, COOLINGFAN_INPUT, on, COOLINGFAN, COOLINGFAN, p);
    } else {
      LampsWritten(s, RUNNING_LIGHTS_INPUT, on, RUNNINGLIGHTS, RUNNINGLIGHTS, p);
    }
  }

  lemma InputAlone(s: State, cmd: Cmd, input: nat, on: bool, p: nat)
    requires Shape(s) && SwitchesInput(cmd, input, on) && p < NUM_DATA_RECS
    requires cmd.EnableStart? || cmd.StarterOff? || cmd.OnBrakes? || cmd.OffBrakes?
    ensures Written(s, Command(s, cmd), input, on, p, false)
  {
    hide Written, ChangeInput;
    LampsWritten(s, input, on, LHEADLAMP, LHEADLAMP, p);
  }

  /** Seen from any input: the commanded one has the commanded state, the others keep theirs. */
  lemma InputBits(s: State, cmd: Cmd, input: nat, on: bool, other: nat)
    requires Shape(s) && SwitchesInput(cmd, input, on) && other < NUM_DATA_RECS
    ensures BitOn(Command(s, cmd).fake2[Bank(other)], Index(other))
            <==> if other == input then on else BitOn(s.fake2[Bank(other)], Index(other))
  {
    InputWritten(s, cmd, input, on, 0);
    RealBanksBijective(input, other, 0, 0);
    SetBitReads(s.fake2[Bank(input)], Index(input), on, Index(other));
  }

  lemma StillIndexed(s: State, cmd: Cmd, input: nat, on: bool)
    requires Indexed(s) && SwitchesInput(cmd, input, on)
    ensures Indexed(Command(s, cmd))
  {
    var t := Command(s, cmd);
    forall p: nat | p < NUM_DATA_RECS ensures t.recs[p].inputPort == s.recs[p].inputPort {
      InputWritten(s, cmd, input, on, p);
    }
    InputWritten(s, cmd, input, on, 0);
    IndexStable(s.recs, t.recs, CELLS);
  }

  lemma SameBit(b: Byte, bit: nat, on: bool)
    requires bit < 8 && BitOn(b, bit) == on
    ensures SetBit(b, bit, on) == b
  {
    MaskCases(bit);
  }

  lemma QuietScan(s: State, bank: nat)
    requires Shape(s) && bank < NUM_PORTS && s.fake1[bank] == s.fake2[bank]
    ensures FakeScan(s, bank) == s
  {
  }

  /** What a scan after the write drives. */
  lemma ScanAfterWrite(s: State, input: nat, b: Byte, on: bool, p: nat)
    requires Indexed(s) && input < NUM_DATA_RECS && p < NUM_DATA_RECS
    requires s.fake1[Bank(input)] == b && s.fake2[Bank(input)] == SetBit(b, Index(input), on)
    ensures DrivenOrKept(s, FakeScan(s, Bank(input)), p,
                         BitOn(b, Index(input)) != on && s.recs[p].inputPort == input, if on then 1 else 0)
  {
    if BitOn(b, Index(input)) == on {
      SameBit(b, Index(input), on);
      QuietScan(s, Bank(input));
    } else {
      SimulatedInput(s, b, input, on, p);
    }
  }

  /** Main result: a switch command and a scan of its bank, settled before, drive exactly the outputs
      assigned to the command's own input, on or off, if the simulated switch was the other way before;
      a follow output then shows it. */
  lemma CommandDrives(s: State, cmd: Cmd, input: nat, on: bool, p: nat)
    requires Indexed(s) && SwitchesInput(cmd, input, on) && p < NUM_DATA_RECS
    requires s.fake1[Bank(input)] == s.fake2[Bank(input)]
    ensures
      var t := Command(s, cmd);
      var u, changed := FakeScan(t, Bank(input)), BitOn(s.fake2[Bank(input)], Index(input)) != on;
      && Indexed(t) && t.out[p] == s.out[p]
      && DrivenOrKept(t, u, p, changed && s.recs[p].inputPort == input, if on then 1 else 0)
      && (s.recs[p].kind == 0 && s.recs[p].inputPort == input && changed ==>
            (u.out[p] <==> Shown(s.recs[p], on)))
  {
    var t := Command(s, cmd);
    StillIndexed(s, cmd, input, on);
    InputWritten(s, cmd, input, on, p);
    ScanAfterWrite(t, input, s.fake2[Bank(input)], on, p);
    if s.recs[p].kind == 0 && s.recs[p].inputPort == input && BitOn(s.fake2[Bank(input)], Index(input)) != on {
      FollowsDrive(t, FakeScan(t, Bank(input)), p, if on then 1 else 0);
    }
  }

  // ---------- lamps and wipers without an input ----------

  /** The relays a command writes itself, with the state it leaves them in. */
  function Writes(cmd: Cmd): seq<(nat, bool)> {
    match cmd
    case OnLLights => [(LHEADLAMP, true)]
    case OffLLights => [(LHEADLAMP, false)]
    case OnRLights => [(RHEADLAMP, true)]
    case OffRLights => [(RHEADLAMP, false)]
    case OnLBrights => [(LBRIGHTS, true)]
    case OffLBrights => [(LBRIGHTS, false)]
    case OnRBrights => [(RBRIGHTS, true)]
    case OffRBrights => [(RBRIGHTS, false)]
    case Wiper1 => [(WWIPER1, true), (WWIPER2, false)]
    case Wiper2 => [(WWIPER1, true), (WWIPER2, true)]
    case WiperOff => [(WWIPER1, false), (WWIPER2, false)]
    case SpecialCmd => [(LHEADLAMP, false), (LBRIGHTS, false), (RHEADLAMP, false), (RBRIGHTS, false)]
    case _ => []
  }

  /** From s to t a follow output shows the given state, with its configuration as it was. */
  predicate Shows(s: State, t: State, p: nat, on: bool)
    requires Shape(s) && Shape(t) && p < NUM_DATA_RECS
  {
    (t.out[p] <==> Shown(s.recs[p], on)) && t.recs[p].kind == s.recs[p].kind && t.recs[p].polarity == s.recs[p].polarity
  }

  predicate Alone(s: State, t: State, p: nat)
    requires Shape(s) && Shape(t) && p < NUM_DATA_RECS
  {
    t.out[p] == s.out[p] && t.recs[p] == s.recs[p]
  }

  /** A list of writes leaves a follow output in the state of the last one for it. */
  lemma {:induction false} LastWriteShows(s: State, ws: seq<(nat, Uchar)>, p: nat, k: nat)
    requires Shape(s) && (forall j :: 0 <= j < |ws| ==> ws[j].0 < NUM_DATA_RECS && ws[j].1 <= 1)
    requires p < NUM_DATA_RECS && s.recs[p].kind == 0
    requires k < |ws| && ws[k].0 == p && forall j :: k < j < |ws| ==> ws[j].0 != p
    ensures Shows(s, SetOutputs(s, ws), p, ws[k].1 == 1)
    decreases |ws|
  {
    var t := SetOutput(s, ws[0].0, ws[0].1);
    if ws[0].0 == p {
      Follows(s, p, ws[0].1);
    } else {
      NothingElse(s, ws[0].0, ws[0].1, p);
    }
    if k == 0 {
      OthersAlone(t, ws[1..], p);
    } else {
      LastWriteShows(t, ws[1..], p, k - 1);
    }
  }

  lemma {:induction false} OthersAlone(s: State, ws: seq<(nat, Uchar)>, p: nat)
    requires Shape(s) && (forall j :: 0 <= j < |ws| ==> ws[j].0 < NUM_DATA_RECS && ws[j].0 != p)
    requires p < NUM_DATA_RECS
    ensures Alone(s, SetOutputs(s, ws), p)
    decreases |ws|
  {
    if ws != [] {
      NothingElse(s, ws[0].0, ws[0].1, p);
      OthersAlone(SetOutput(s, ws[0].0, ws[0].1), ws[1..], p);
    }
  }

  predicate IsSpecialLamp(p: nat) {
    p == LHEADLAMP || p == LBRIGHTS || p == RHEADLAMP || p == RBRIGHTS
  }

  /** SPECIAL_CMD leaves its four lamps off, and the others alone. */
  lemma SpecialLeavesOff(s: State, p: nat)
    requires Shape(s) && p < NUM_DATA_RECS
    ensures var t := Command(s, SpecialCmd);
            LeftOff(s, t, p)
  {
    hide SetOutputs, SetOutput, Shows, Alone;
    OneRound(s, p);
    OneRound(SetOutputs(s, SPECIAL), p);
    TwoRounds(s, SetOutputs(s, SPECIAL), SetOutputs(SetOutputs(s, SPECIAL), SPECIAL), p);
  }

  predicate LeftOff(s: State, t: State, p: nat)
    requires Shape(s) && Shape(t) && p < NUM_DATA_RECS
  {
    if IsSpecialLamp(p) then s.recs[p].kind == 0 ==> Shows(s, t, p, false) else Alone(s, t, p)
  }

  lemma OneRound(s: State, p: nat)
    requires Shape(s) && p < NUM_DATA_RECS
    ensures LeftOff(s, SetOutputs(s, SPECIAL), p)
  {
    hide SetOutputs, Shows, Alone;
    if !IsSpecialLamp(p) {
      OthersAlone(s, SPECIAL, p);
    } else if s.recs[p].kind == 0 {
      LastWriteShows(s, SPECIAL, p, if p == LBRIGHTS then 12 else if p == LHEADLAMP then 13
                                    else if p == RBRIGHTS then 14 else 15);
    }
  }

  lemma TwoRounds(s: State, t: State, u: State, p: nat)
    requires Shape(s) && Shape(t) && Shape(u) && p < NUM_DATA_RECS && LeftOff(s, t, p) && LeftOff(t, u, p)
    ensures LeftOff(s, u, p)
  {
  }

  /** The writes that concern one port. */
  function For(ws: seq<(nat, Uchar)>, p: nat): seq<Uchar> {
    if ws == [] then [] else (if ws[0].0 == p then [ws[0].1] else []) + For(ws[1..], p)
  }

  /** In each of its two rounds SPECIAL_CMD switches each of the four lamps on and off twice. */
  lemma SpecialFlashes(p: nat)
    ensures For(SPECIAL, p) == if IsSpecialLamp(p) then [1, 0, 1, 0] else []
  {
    ForEight(SPECIAL, p);
    ForEight(SPECIAL[8..], p);
    assert SPECIAL[8..][8..] == [];
  }

  /** The first eight writes, one by one. */
  lemma ForEight(ws: seq<(nat, Uchar)>, p: nat)
    requires |ws| >= 8
    ensures For(ws, p) == (if ws[0].0 == p then [ws[0].1] else []) + ((if ws[1].0 == p then [ws[1].1] else [])
                          + ((if ws[2].0 == p then [ws[2].1] else []) + ((if ws[3].0 == p then [ws[3].1] else [])
                          + ((if ws[4].0 == p then [ws[4].1] else []) + ((if ws[5].0 == p then [ws[5].1] else [])
                          + ((if ws[6].0 == p then [ws[6].1] else []) + ((if ws[7].0 == p then [ws[7].1] else [])
                          + For(ws[8..], p))))))))
  {
    ForNext(ws, 0, p);
    ForNext(ws, 1, p);
    ForNext(ws, 2, p);
    ForNext(ws, 3, p);
    ForNext(ws, 4, p);
    ForNext(ws, 5, p);
    ForNext(ws, 6, p);
    ForNext(ws, 7, p);
    assert ws[0..] == ws;
  }

  lemma ForNext(ws: seq<(nat, Uchar)>, k: nat, p: nat)
    requires k < |ws|
    ensures For(ws[k..], p) == (if ws[k].0 == p then [ws[k].1] else []) + For(ws[k + 1..], p)
  {
    assert ws[k..][1..] == ws[k + 1..];
  }

  /** Main result: each lamp and wiper command leaves the follow outputs it names in the state it
      names, and no other output moves. */
  lemma DirectWrites(s: State, cmd: Cmd, p: nat)
    requires Shape(s) && Writes(cmd) != [] && p < NUM_DATA_RECS
    ensures forall on :: (p, on) in Writes(cmd) && s.recs[p].kind == 0 ==> Shows(s, Command(s, cmd), p, on)
    ensures (forall on :: (p, on) !in Writes(cmd)) ==> Alone(s, Command(s, cmd), p)
  {
    hide Command, Shows, Alone;
    if cmd.SpecialCmd? {
      SpecialLeavesOff(s, p);
      assert !IsSpecialLamp(p) ==> forall on :: (p, on) !in Writes(cmd);
      assert IsSpecialLamp(p) ==> (p, false) in Writes(cmd);
    } else if cmd.Wiper1? || cmd.Wiper2? || cmd.WiperOff? {
      WiperCommand(s, cmd, p);
      assert p == WWIPER1 ==> Writes(cmd)[0].0 == p;
      assert p == WWIPER2 ==> Writes(cmd)[1].0 == p;
    } else {
      assert Writes(cmd)[0] in Writes(cmd);
      LampWritten(s, cmd, p);
    }
  }

  lemma WiperCommand(s: State, cmd: Cmd, p: nat)
    requires Shape(s) && p < NUM_DATA_RECS && (cmd.Wiper1? || cmd.Wiper2? || cmd.WiperOff?)
    ensures var t := Command(s, cmd);
            if p == WWIPER1 then s.recs[p].kind == 0 ==> Shows(s, t, p, Writes(cmd)[0].1)
            else if p == WWIPER2 then s.recs[p].kind == 0 ==> Shows(s, t, p, Writes(cmd)[1].1)
            else Alone(s, t, p)
  {
    hide SetOutput, Shows, Alone;
    WipersWritten(s, if cmd.WiperOff? then 0 else 1, if cmd.Wiper2? then 1 else 0, p);
  }

  lemma WipersWritten(s: State, a: Uchar, b: Uchar, p: nat)
    requires Shape(s) && p < NUM_DATA_RECS && a <= 1 && b <= 1
    ensures var t := SetOutput(SetOutput(s, WWIPER1, a), WWIPER2, b);
            if p == WWIPER1 then s.recs[p].kind == 0 ==> Shows(s, t, p, a == 1)
            else if p == WWIPER2 then s.recs[p].kind == 0 ==> Shows(s, t, p, b == 1)
            else Alone(s, t, p)
  {
    var t := SetOutput(s, WWIPER1, a);
    if p == WWIPER1 {
      NothingElse(t, WWIPER2, b, p);
      if s.recs[p].kind == 0 {
        Follows(s, p, a);
      }
    } else {
      NothingElse(s, WWIPER1, a, p);
      if p != WWIPER2 {
        NothingElse(t, WWIPER2, b, p);
      } else if s.recs[p].kind == 0 {
        Follows(t, p, b);
      }
    }
  }

  lemma LampIsOutput(s: State, cmd: Cmd)
    requires Shape(s) && |Writes(cmd)| == 1
    ensures var w := Writes(cmd)[0]; Command(s, cmd) == SetOutput(s, w.0, if w.1 then 1 else 0)
  {
    hide SetOutput;
  }

  lemma LampWritten(s: State, cmd: Cmd, p: nat)
    requires Shape(s) && |Writes(cmd)| == 1 && p < NUM_DATA_RECS
    ensures var w := Writes(cmd)[0];
            if p == w.0 then s.recs[p].kind == 0 ==> Shows(s, Command(s, cmd), p, w.1)
            else Alone(s, Command(s, cmd), p)
  {
    hide Command, SetOutput;
    var w := Writes(cmd)[0];
    var onoff := if w.1 then 1 else 0;
    LampIsOutput(s, cmd);
    if p != w.0 {
      NothingElse(s, w.0, onoff, p);
    } else if s.recs[p].kind == 0 {
      Follows(s, p, onoff);
    }
  }

  // ---------- blinker tests ----------

  /** A test under way stays so. */
  predicate KeepsTests(s: State, t: State) {
    (s.leftBlinkerTest ==> t.leftBlinkerTest) && (s.rightBlinkerTest ==> t.rightBlinkerTest)
  }

  lemma SetOutputTests(s: State, port: nat, onoff: Uchar)
    requires Shape(s) && port < NUM_DATA_RECS
    ensures KeepsTests(s, SetOutput(s, port, onoff))
  {
  }

  lemma {:induction false} DriveTests(s: State, ip: seq<Ip>, input: nat, onoff: Uchar)
    requires Shape(s) && forall j :: 0 <= j < |ip| ==> ip[j].port < NUM_DATA_RECS
    ensures KeepsTests(s, Drive(s, ip, input, onoff))
    decreases |ip|
  {
    if ip != [] {
      SetOutputTests(s, ip[0].port, onoff);
      DriveTests(if ip[0].input == input then SetOutput(s, ip[0].port, onoff) else s, ip[1..], input, onoff);
    }
  }

  lemma {:induction false} SetOutputsTests(s: State, ws: seq<(nat, Uchar)>)
    requires Shape(s) && forall j :: 0 <= j < |ws| ==> ws[j].0 < NUM_DATA_RECS
    ensures KeepsTests(s, SetOutputs(s, ws))
    decreases |ws|
  {
    if ws != [] {
      SetOutputTests(s, ws[0].0, ws[0].1);
      SetOutputsTests(SetOutput(s, ws[0].0, ws[0].1), ws[1..]);
    }
  }

  lemma ChangedTests(s: State, bank: nat, mask: Byte, result: Byte)
    requires Shape(s) && bank < NUM_PORTS
    ensures KeepsTests(s, Changed(s, bank, mask, result)) && KeepsTests(s, FakeChanged(s, bank, mask, result))
  {
    DriveTests(s, s.ip, ChangedInput(bank, mask), ChangedState(mask, result));
  }

  lemma DirectTests(s: State, cmd: Cmd)
    requires Shape(s) && Writes(cmd) != []
    ensures KeepsTests(s, Command(s, cmd))
  {
    hide SetOutput;
    if cmd.SpecialCmd? {
      SetOutputsTests(s, SPECIAL);
      SetOutputsTests(SetOutputs(s, SPECIAL), SPECIAL);
    } else if cmd.Wiper1? || cmd.Wiper2? || cmd.WiperOff? {
      WiperTests(s, if cmd.WiperOff? then 0 else 1, if cmd.Wiper2? then 1 else 0);
    } else {
      LampIsOutput(s, cmd);
      SetOutputTests(s, Writes(cmd)[0].0, if Writes(cmd)[0].1 then 1 else 0);
    }
  }

  lemma WiperTests(s: State, a: Uchar, b: Uchar)
    requires Shape(s)
    ensures KeepsTests(s, SetOutput(SetOutput(s, WWIPER1, a), WWIPER2, b))
  {
    SetOutputTests(s, WWIPER1, a);
    SetOutputTests(SetOutput(s, WWIPER1, a), WWIPER2, b);
  }

  lemma LampsTests(s: State, input: nat, on: bool, a: nat, b: nat)
    requires Shape(s) && input < NUM_DATA_RECS && a < NUM_DATA_RECS && b < NUM_DATA_RECS
    ensures var v := if on then 1 else 0;
            && KeepsTests(s, SetOnoff(ChangeInput(s, input, on), a, v))
            && KeepsTests(s, SetOnoff(SetOnoff(ChangeInput(s, input, on), a, v), b, v))
  {
  }

  lemma LampCommandTests(s: State, cmd: Cmd)
    requires Shape(s) && IsLampCommand(cmd) && Writes(cmd) == []
    ensures KeepsTests(s, Command(s, cmd))
  {
    hide ChangeInput, SetOnoff, KeepsTests;
    match cmd {
      case OnFan => LampsTests(s, COOLINGFAN_INPUT, true, COOLINGFAN, COOLINGFAN);
      case OffFan => LampsTests(s, COOLINGFAN_INPUT, false, COOLINGFAN, COOLINGFAN);
      case OnLights => LampsTests(s, HEADLAMP_INPUT, true, LHEADLAMP, RHEADLAMP);
      case OffLights => LampsTests(s, HEADLAMP_INPUT, false, LHEADLAMP, RHEADLAMP);
      case OnRunningLights => LampsTests(s, RUNNING_LIGHTS_INPUT, true, RUNNINGLIGHTS, RUNNINGLIGHTS);
      case OffRunningLights => LampsTests(s, RUNNING_LIGHTS_INPUT, false, RUNNINGLIGHTS, RUNNINGLIGHTS);
      case OnBrights => LampsTests(s, BRIGHTS_INPUT, true, LBRIGHTS, RBRIGHTS);
      case OffBrights => LampsTests(s, BRIGHTS_INPUT, false, LBRIGHTS, RBRIGHTS);
      case _ =>
    }
  }

  lemma OtherCommandTests(s: State, cmd: Cmd)
    requires Shape(s) && !IsLampCommand(cmd) && Writes(cmd) == []
    ensures KeepsTests(s, Command(s, cmd))
  {
  }

  lemma CommandTests(s: State, cmd: Cmd)
    requires Shape(s)
    ensures KeepsTests(s, Command(s, cmd))
  {
    hide Command, KeepsTests;
    if Writes(cmd) != [] {
      DirectTests(s, cmd);
    } else if IsLampCommand(cmd) {
      LampCommandTests(s, cmd);
    } else {
      OtherCommandTests(s, cmd);
    }
  }

  lemma EventTests(s: State, e: Event)
    requires Shape(s) && Legal(e) && !e.Second?
    ensures KeepsTests(s, Next(s, e))
  {
    hide Command;
    match e {
      case InputEdge(bank, raw) => ChangedTests(s, bank, !raw ^ s.inport[bank], !raw);
      case FakeInputs(bank) => ChangedTests(s, bank, s.fake2[bank] ^ s.fake1[bank], s.fake2[bank]);
      case Post(cmd) =>
      case Serve =>
        if s.control.Ready? && s.queue != [] {
          CommandTests(s.(queue := s.queue[..|s.queue| - 1]), s.queue[|s.queue| - 1]);
        }
    }
  }

  lemma {:induction false} TestsGoOn(s: State, es: seq<Event>)
    requires Shape(s) && AllLegal(es) && EngineSafety.Seconds(es) == 0
    ensures KeepsTests(s, Exec(s, es))
    decreases es
  {
    if es != [] {
      EventTests(s, es[0]);
      TestsGoOn(Next(s, es[0]), es[1..]);
    }
  }

  /** The simulated switch of an input. */
  predicate SimulatedOn(s: State, input: nat)
    requires Shape(s) && input < NUM_DATA_RECS
  {
    BitOn(s.fake2[Bank(input)], Index(input))
  }

  lemma ChangeInputBits(s: State, input: nat, on: bool, other: nat)
    requires Shape(s) && input < NUM_DATA_RECS && other < NUM_DATA_RECS
    ensures SimulatedOn(ChangeInput(s, input, on), other) <==> if other == input then on else SimulatedOn(s, other)
  {
    RealBanksBijective(input, other, 0, 0);
    SetBitReads(s.fake2[Bank(input)], Index(input), on, Index(other));
  }

  /** The second ends the tests: their switches go off, and no other one moves. */
  lemma TestsEnd(s: State, input: nat)
    requires Shape(s) && input < NUM_DATA_RECS
    ensures
      var t := TickBlinkerTests(s);
      && !t.leftBlinkerTest && !t.rightBlinkerTest
      && (SimulatedOn(t, input)
          <==> SimulatedOn(s, input) && !(s.leftBlinkerTest && input == LEFTBLINKER_INPUT)
               && !(s.rightBlinkerTest && input == RIGHTBLINKER_INPUT))
  {
    var t := if s.leftBlinkerTest then ChangeInput(s, LEFTBLINKER_INPUT, false) else s;
    ChangeInputBits(s, LEFTBLINKER_INPUT, false, input);
    ChangeInputBits(t, RIGHTBLINKER_INPUT, false, input);
    var u := if s.rightBlinkerTest then ChangeInput(t, RIGHTBLINKER_INPUT, false) else t;
    SameSwitches(u, TickBlinkerTests(s), input);
  }

  lemma SameSwitches(s: State, t: State, input: nat)
    requires Shape(s) && Shape(t) && input < NUM_DATA_RECS && t.fake2 == s.fake2
    ensures SimulatedOn(t, input) <==> SimulatedOn(s, input)
  {
  }

  /** The outputs' loop switches simulated inputs off only. */
  lemma TickOutputSwitches(s: State, port: nat, input: nat)
    requires Shape(s) && port < NUM_DATA_RECS && input < NUM_DATA_RECS
    ensures
      var t := TickOutput(s, port);
      && t.leftBlinkerTest == s.leftBlinkerTest && t.rightBlinkerTest == s.rightBlinkerTest
      && (SimulatedOn(t, input) ==> SimulatedOn(s, input))
  {
    var r := s.recs[port];
    SameSwitches(s, Blink(s, port), input);
    if Running(r) && Decrement(r.timeLeft) == 0 {
      ExpiryClears(Blink(s, port), TickRec(r), input);
    }
  }

  lemma {:induction false} TickOutputsSwitches(s: State, i: nat, input: nat)
    requires Shape(s) && i <= TESTOUTPUT27 && input < NUM_DATA_RECS
    ensures
      var t := TickOutputs(s, i);
      && t.leftBlinkerTest == s.leftBlinkerTest && t.rightBlinkerTest == s.rightBlinkerTest
      && (SimulatedOn(t, input) ==> SimulatedOn(s, input))
    decreases TESTOUTPUT27 - i
  {
    hide TickOutput, SimulatedOn;
    if i < TESTOUTPUT27 {
      TickOutputSwitches(s, i, input);
      TickOutputsSwitches(TickOutput(s, i), i + 1, input);
    }
  }

  lemma ClockSwitches(s: State)
    requires Shape(s)
    ensures var t := TickClock(s);
            t.leftBlinkerTest == s.leftBlinkerTest && t.rightBlinkerTest == s.rightBlinkerTest && t.fake2 == s.fake2
  {
  }

  /** Main result: a blinker test switches its simulated input on, is under way until the next
      second whatever happens in between, and that second ends it and switches the input off. */
  lemma BlinkerTest(s: State, left: bool, es: seq<Event>)
    requires Shape(s) && AllLegal(es) && EngineSafety.Seconds(es) == 0
    ensures
      var input := if left then LEFTBLINKER_INPUT else RIGHTBLINKER_INPUT;
      var t := Command(s, if left then TestLeftBlinker else TestRightBlinker);
      var u := Exec(t, es);
      && SimulatedOn(t, input)
      && (if left then u.leftBlinkerTest else u.rightBlinkerTest)
      && !Next(u, Second).leftBlinkerTest && !Next(u, Second).rightBlinkerTest
      && !SimulatedOn(Next(u, Second), input)
  {
    hide TickOutputs, TickClock, SimulatedOn;
    var input := if left then LEFTBLINKER_INPUT else RIGHTBLINKER_INPUT;
    var t := Command(s, if left then TestLeftBlinker else TestRightBlinker);
    TestSwitchedOn(s, left);
    TestsGoOn(t, es);
    SecondEndsTests(Exec(t, es), input);
  }

  lemma TestSwitchedOn(s: State, left: bool)
    requires Shape(s)
    ensures
      var t := Command(s, if left then TestLeftBlinker else TestRightBlinker);
      && SimulatedOn(t, if left then LEFTBLINKER_INPUT else RIGHTBLINKER_INPUT)
      && (if left then t.leftBlinkerTest else t.rightBlinkerTest)
  {
    var input := if left then LEFTBLINKER_INPUT else RIGHTBLINKER_INPUT;
    ChangeInputBits(s, input, true, input);
    SameSwitches(ChangeInput(s, input, true), Command(s, if left then TestLeftBlinker else TestRightBlinker), input);
  }

  lemma SecondEndsTests(s: State, input: nat)
    requires Shape(s) && (input == LEFTBLINKER_INPUT || input == RIGHTBLINKER_INPUT)
    ensures
      var t := Next(s, Second);
      && !t.leftBlinkerTest && !t.rightBlinkerTest
      && (SimulatedOn(t, input) ==>
            SimulatedOn(s, input) && !(if input == LEFTBLINKER_INPUT then s.leftBlinkerTest else s.rightBlinkerTest))
  {
    hide TickOutputs, TickClock, TickBlinkerTests, SimulatedOn;
    var t := TickClock(s);
    ClockSwitches(s);
    SameSwitches(s, t, input);
    TestsEnd(t, input);
    TickOutputsSwitches(TickBlinkerTests(t), STARTER, input);
  }
}
