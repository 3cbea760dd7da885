// The engine's running time and the lights it switches: what timer_task counts over whole runs.

module EngineClock {
  import opened Bits
  import opened Relays
  import opened Records
  import opened Engine
  import EngineSafety
  import EngineSteps

  /** What the clock and the lights' countdown consist of. */
  predicate SameClock(s: State, t: State) {
    && t.seconds == s.seconds && t.minutes == s.minutes && t.hours == s.hours
    && t.countdown == s.countdown && t.lightsOnDelay == s.lightsOnDelay
    && t.engineRunning == s.engineRunning && t.control == s.control
  }

  lemma SetOutputClock(s: State, port: nat, onoff: Uchar)
    requires Shape(s) && port < NUM_DATA_RECS
    ensures SameClock(s, SetOutput(s, port, onoff))
  {
  }

  lemma {:induction false} DriveClock(s: State, ip: seq<Ip>, input: nat, onoff: Uchar)
    requires Shape(s) && forall j :: 0 <= j < |ip| ==> ip[j].port < NUM_DATA_RECS
    ensures SameClock(s, Drive(s, ip, input, onoff))
    decreases |ip|
  {
    if ip != [] {
      SetOutputClock(s, ip[0].port, onoff);
      DriveClock(if ip[0].input == input then SetOutput(s, ip[0].port, onoff) else s, ip[1..], input, onoff);
    }
  }

  lemma {:induction false} SetOutputsClock(s: State, ws: seq<(nat, Uchar)>)
    requires Shape(s) && forall j :: 0 <= j < |ws| ==> ws[j].0 < NUM_DATA_RECS
    ensures SameClock(s, SetOutputs(s, ws))
    decreases |ws|
  {
    if ws != [] {
      SetOutputClock(s, ws[0].0, ws[0].1);
      SetOutputsClock(SetOutput(s, ws[0].0, ws[0].1), ws[1..]);
    }
  }

  lemma ChangedClock(s: State, bank: nat, mask: Byte, result: Byte)
    requires Shape(s) && bank < NUM_PORTS
    ensures SameClock(s, Changed(s, bank, mask, result)) && SameClock(s, FakeChanged(s, bank, mask, result))
  {
    DriveClock(s, s.ip, ChangedInput(bank, mask), ChangedState(mask, result));
  }

  /** No command but START_SEQ and SHUTDOWN concerns the clock. */
  lemma CommandClock(s: State, cmd: Cmd)
    requires Shape(s) && !cmd.StartSeq? && !cmd.Shutdown?
    ensures SameClock(s, Command(s, cmd))
  {
    if EngineSteps.IsLampCommand(cmd) {
      LampCommandClock(s, cmd);
    } else {
      match cmd {
        case SpecialCmd =>
          SetOutputsClock(s, SPECIAL);
          SetOutputsClock(SetOutputs(s, SPECIAL), SPECIAL);
        case Wiper1 => TwoOutputsClock(s, 1, 0);
        case Wiper2 => TwoOutputsClock(s, 1, 1);
        case WiperOff => TwoOutputsClock(s, 0, 0);
        case OnAcc => MainRelayClock(s, ACCON, true, 1);
        case OffAcc => MainRelayClock(s, ACCON, false, 0);
        case OnFuelPump => MainRelayClock(s, FUELPUMP, true, 1);
        case OffFuelPump => MainRelayClock(s, FUELPUMP, false, 0);
        case _ => InputCommandClock(s, cmd);
      }
    }
  }

  lemma MainRelayClock(s: State, port: nat, on: bool, onoff: Uchar)
    requires Shape(s) && port < NUM_DATA_RECS
    ensures SameClock(s, SetRelay(s, port, on)) && SameClock(s, SetOnoff(SetRelay(s, port, on), port, onoff))
  {
  }

  lemma InputCommandClock(s: State, cmd: Cmd)
    requires Shape(s)
    requires EngineSteps.IsInputCommand(cmd) || cmd.EstopSignal? || cmd.Other?
    ensures SameClock(s, Command(s, cmd))
  {
  }

  lemma LampsClock(s: State, input: nat, on: bool, a: nat, b: nat)
    requires Shape(s) && input < NUM_DATA_RECS && a < NUM_DATA_RECS && b < NUM_DATA_RECS
    ensures var v := if on then 1 else 0;
            && SameClock(s, SetOnoff(ChangeInput(s, input, on), a, v))
            && SameClock(s, SetOnoff(SetOnoff(ChangeInput(s, input, on), a, v), b, v))
  {
  }

  lemma LampCommandClock(s: State, cmd: Cmd)
    requires Shape(s) && EngineSteps.IsLampCommand(cmd)
    ensures SameClock(s, Command(s, cmd))
  {
    hide SetOutput, SetOnoff, ChangeInput, SameClock;
    match cmd {
      case OnFan => LampsClock(s, COOLINGFAN_INPUT, true, COOLINGFAN, COOLINGFAN);
      case OffFan => LampsClock(s, COOLINGFAN_INPUT, false, COOLINGFAN, COOLINGFAN);
      case OnLights => LampsClock(s, HEADLAMP_INPUT, true, LHEADLAMP, RHEADLAMP);
      case OffLights => LampsClock(s, HEADLAMP_INPUT, false, LHEADLAMP, RHEADLAMP);
      case OnRunningLights => LampsClock(s, RUNNING_LIGHTS_INPUT, true, RUNNINGLIGHTS, RUNNINGLIGHTS);
      case OffRunningLights => LampsClock(s, RUNNING_LIGHTS_INPUT, false, RUNNINGLIGHTS, RUNNINGLIGHTS);
      case OnBrights => LampsClock(s, BRIGHTS_INPUT, true, LBRIGHTS, RBRIGHTS);
      case OffBrights => LampsClock(s, BRIGHTS_INPUT, false, LBRIGHTS, RBRIGHTS);
      case OnLLights => SetOutputClock(s, LHEADLAMP, 1);
      case OffLLights => SetOutputClock(s, LHEADLAMP, 0);
      case OnRLights => SetOutputClock(s, RHEADLAMP, 1);
      case OffRLights => SetOutputClock(s, RHEADLAMP, 0);
      case OnRBrights => SetOutputClock(s, RBRIGHTS, 1);
      case OffRBrights => SetOutputClock(s, RBRIGHTS, 0);
      case OnLBrights => SetOutputClock(s, LBRIGHTS, 1);
      case OffLBrights => SetOutputClock(s, LBRIGHTS, 0);
      case _ =>
    }
  }

  lemma TwoOutputsClock(s: State, a: Uchar, b: Uchar)
    requires Shape(s)
    ensures SameClock(s, SetOutput(SetOutput(s, WWIPER1, a), WWIPER2, b))
  {
    SetOutputClock(s, WWIPER1, a);
    SetOutputClock(SetOutput(s, WWIPER1, a), WWIPER2, b);
  }

  /** The second's other half, from the blinker tests on, leaves clock and queue alone. */
  lemma {:induction false} TickOutputsClock(s: State, i: nat)
    requires Shape(s) && i <= TESTOUTPUT27
    ensures SameClock(s, TickOutputs(s, i)) && TickOutputs(s, i).queue == s.queue
    decreases TESTOUTPUT27 - i
  {
    if i < TESTOUTPUT27 {
      TickOutputClock(s, i);
      TickOutputsClock(TickOutput(s, i), i + 1);
    }
  }

  lemma TickOutputClock(s: State, port: nat)
    requires Shape(s) && port < NUM_DATA_RECS
    ensures SameClock(s, TickOutput(s, port)) && TickOutput(s, port).queue == s.queue
  {
    BlinkClock(s, port);
    ExpireClock(Blink(s, port), TickRec(s.recs[port]));
  }

  lemma BlinkClock(s: State, port: nat)
    requires Shape(s) && port < NUM_DATA_RECS
    ensures SameClock(s, Blink(s, port)) && Blink(s, port).queue == s.queue
  {
  }

  lemma ExpireClock(s: State, u: Rec)
    requires Shape(s) && u.port < NUM_DATA_RECS
    ensures SameClock(s, Expire(s, u)) && Expire(s, u).queue == s.queue
    ensures SameClock(s, Insert(s, u)) && Insert(s, u).queue == s.queue
  {
  }

  lemma BlinkerTestsClock(s: State)
    requires Shape(s)
    ensures SameClock(s, TickBlinkerTests(s)) && TickBlinkerTests(s).queue == s.queue
  {
  }

  lemma TickIsClock(s: State)
    requires Shape(s)
    ensures SameClock(TickClock(s), Tick(s)) && Tick(s).queue == TickClock(s).queue
  {
    BlinkerTestsClock(TickClock(s));
    TickOutputsClock(TickBlinkerTests(TickClock(s)), STARTER);
  }

  // ---------- the running time ----------

  function RunningTime(s: State): nat {
    3600 * s.hours + 60 * s.minutes + s.seconds
  }

  predicate ClockOk(s: State) {
    s.seconds < 60 && s.minutes < 60
  }

  predicate ServesShutdown(s: State, e: Event) {
    e.Serve? && s.control.Ready? && s.queue != [] && s.queue[|s.queue| - 1] == Shutdown
  }

  /** The running seconds after an event that finds n of them. */
  function Counted(s: State, e: Event, n: nat): nat {
    if e.Second? then if s.engineRunning then n + 1 else 0
    else if ServesShutdown(s, e) then 0
    else n
  }

  /** The running seconds of a run: one more with each second of a running engine, none after a
      SHUTDOWN or a second of a stopped one. */
  function CountedRun(s: State, es: seq<Event>, n: nat): nat
    requires Shape(s) && AllLegal(es)
    decreases es
  {
    if es == [] then n else CountedRun(Next(s, es[0]), es[1..], Counted(s, es[0], n))
  }

  lemma QueueOnly(s: State, cmd: Cmd)
    requires Shape(s)
    ensures SameClock(s, AddMsg(s, cmd))
  {
  }

  lemma LightsClock(s: State)
    requires Shape(s)
    ensures SameClock(s, QueueLightsOn(s)) && SameClock(s, QueueLightsOff(s))
  {
    hide AddMsg;
    QueueOnly(s, OnLights);
    QueueOnly(AddMsg(s, OnLights), OnRunningLights);
    var t := AddMsg(AddMsg(AddMsg(s, OffLLights), OffRLights), OffLights);
    QueueOnly(s, OffLLights);
    QueueOnly(AddMsg(s, OffLLights), OffRLights);
    QueueOnly(AddMsg(AddMsg(s, OffLLights), OffRLights), OffLights);
    QueueOnly(t, OffRunningLights);
    QueueOnly(AddMsg(t, OffRunningLights), OffFan);
  }

  lemma AdvanceCounts(s: State)
    requires Shape(s) && ClockOk(s)
    ensures ClockOk(AdvanceTime(s)) && RunningTime(AdvanceTime(s)) == RunningTime(s) + 1
  {
  }

  lemma TickClockCounts(s: State)
    requires Shape(s) && ClockOk(s)
    ensures ClockOk(TickClock(s)) && RunningTime(TickClock(s)) == if s.engineRunning then RunningTime(s) + 1 else 0
  {
    if s.engineRunning {
      AdvanceCounts(s);
      LightsClock(AdvanceTime(s));
    } else if s.countdown == 1 {
      LightsClock(ResetTime(s).(countdown := 0));
    }
  }

  /** Is this the step of START_SEQ that sets the engine running, or of SHUTDOWN that sets the countdown? */
  predicate EndsPause(s: State, e: Event) {
    e.Serve? && (s.control.PressingStarter? || s.control.StoppingPump?)
  }

  lemma ServeClock(s: State)
    requires Shape(s)
    ensures var t := Dispatch(s);
            && (if ServesShutdown(s, Serve) then t.seconds == t.minutes == t.hours == 0
                else t.seconds == s.seconds && t.minutes == s.minutes && t.hours == s.hours)
            && (!EndsPause(s, Serve) ==> t.countdown == s.countdown)
            && (!EndsPause(s, Serve) ==> t.engineRunning == (s.engineRunning && !ServesShutdown(s, Serve)))
            && (EndsPause(s, Serve) ==> t.engineRunning == (s.engineRunning || s.control.PressingStarter?))
  {
    if s.control.Ready? && s.queue != [] {
      var t, cmd := s.(queue := s.queue[..|s.queue| - 1]), s.queue[|s.queue| - 1];
      if cmd.StartSeq? || cmd.Shutdown? {
        StartStopClock(t);
      } else {
        CommandClock(t, cmd);
      }
    } else {
      PauseClock(s);
    }
  }

  lemma StartStopClock(s: State)
    requires Shape(s)
    ensures var t := Command(s, StartSeq); SameClock(s, t.(control := s.control))
    ensures var t := Command(s, Shutdown);
            t.seconds == t.minutes == t.hours == 0 && !t.engineRunning && t.countdown == s.countdown
  {
  }

  lemma PauseClock(s: State)
    requires Shape(s) && !(s.control.Ready? && s.queue != [])
    ensures var t := Dispatch(s);
            && t.seconds == s.seconds && t.minutes == s.minutes && t.hours == s.hours
            && (!EndsPause(s, Serve) ==> t.countdown == s.countdown && t.engineRunning == s.engineRunning)
            && (EndsPause(s, Serve) ==> t.engineRunning == (s.engineRunning || s.control.PressingStarter?))
  {
  }

  /** Inputs and posted messages do not concern the clock. */
  lemma OthersClock(s: State, e: Event)
    requires Shape(s) && Legal(e) && !e.Second? && !e.Serve?
    ensures SameClock(s, Next(s, e))
  {
    match e {
      case InputEdge(bank, raw) => ChangedClock(s, bank, !raw ^ s.inport[bank], !raw);
      case FakeInputs(bank) => ChangedClock(s, bank, s.fake2[bank] ^ s.fake1[bank], s.fake2[bank]);
      case Post(cmd) => QueueOnly(s, cmd);
    }
  }

  lemma CountsNext(s: State, e: Event)
    requires Shape(s) && Legal(e) && ClockOk(s)
    ensures ClockOk(Next(s, e)) && RunningTime(Next(s, e)) == Counted(s, e, RunningTime(s))
  {
    match e {
      case Second =>
        TickClockCounts(s);
        TickIsClock(s);
      case Serve => ServeClock(s);
      case _ => OthersClock(s, e);
    }
  }

  /** Main result: hours, minutes and seconds are the running seconds of the run, with minutes and
      seconds below sixty. */
  lemma {:induction false} ClockCounts(s: State, es: seq<Event>)
    requires Shape(s) && AllLegal(es) && ClockOk(s)
    ensures ClockOk(Exec(s, es)) && RunningTime(Exec(s, es)) == CountedRun(s, es, RunningTime(s))
    decreases es
  {
    if es != [] {
      CountsNext(s, es[0]);
      ClockCounts(Next(s, es[0]), es[1..]);
    }
  }

  /** How often a run ends its engine's running time. */
  function Shutdowns(s: State, es: seq<Event>): nat
    requires Shape(s) && AllLegal(es)
    decreases es
  {
    if es == [] then 0 else (if ServesShutdown(s, es[0]) then 1 else 0) + Shutdowns(Next(s, es[0]), es[1..])
  }

  /** While the engine runs, every second counts. */
  lemma {:induction false} RunsOn(s: State, es: seq<Event>)
    requires Shape(s) && AllLegal(es) && ClockOk(s) && s.engineRunning && Shutdowns(s, es) == 0
    ensures Exec(s, es).engineRunning
    ensures RunningTime(Exec(s, es)) == RunningTime(s) + EngineSafety.Seconds(es)
    decreases es
  {
    if es != [] {
      CountsNext(s, es[0]);
      KeepsRunning(s, es[0]);
      RunsOn(Next(s, es[0]), es[1..]);
    }
  }

  lemma KeepsRunning(s: State, e: Event)
    requires Shape(s) && Legal(e) && s.engineRunning && !ServesShutdown(s, e)
    ensures Next(s, e).engineRunning
  {
    match e {
      case Second =>
        RunningKept(s);
        TickIsClock(s);
      case Serve => ServeClock(s);
      case _ => OthersClock(s, e);
    }
  }

  lemma RunningKept(s: State)
    requires Shape(s)
    ensures TickClock(s).engineRunning == s.engineRunning
    ensures !s.engineRunning ==> TickClock(s).countdown == if s.countdown > 0 then s.countdown - 1 else 0
  {
    hide QueueLightsOn, QueueLightsOff;
    LightsClock(AdvanceTime(s));
    LightsClock(ResetTime(s).(countdown := 0));
  }

  // ---------- the lights ----------

  const LIGHTS_ON: seq<Cmd> := [OnLights, OnRunningLights]

  const LIGHTS_OFF: seq<Cmd> := [OffLLights, OffRLights, OffLights, OffRunningLights, OffFan]

  /** The queue after these messages, as many of them as still fit. */
  function Pushed(queue: seq<Cmd>, cmds: seq<Cmd>): seq<Cmd> {
    var room := if |queue| >= MSG_QUEUE_SIZE then 0 else MSG_QUEUE_SIZE - |queue|;
    queue + cmds[..if |cmds| < room then |cmds| else room]
  }

  lemma PushedNext(s: State, cmds: seq<Cmd>)
    requires Shape(s) && cmds != []
    ensures Pushed(AddMsg(s, cmds[0]).queue, cmds[1..]) == Pushed(s.queue, cmds)
  {
  }

  lemma PushedNone(queue: seq<Cmd>)
    ensures Pushed(queue, []) == queue
  {
  }

  lemma QueueLightsOnPushes(s: State)
    requires Shape(s)
    ensures QueueLightsOn(s).queue == Pushed(s.queue, LIGHTS_ON)
  {
    PushedNext(s, LIGHTS_ON);
    PushedNext(AddMsg(s, OnLights), LIGHTS_ON[1..]);
    assert LIGHTS_ON[1..][1..] == [];
    PushedNone(QueueLightsOn(s).queue);
  }

  lemma QueueLightsOffPushes(s: State)
    requires Shape(s)
    ensures QueueLightsOff(s).queue == Pushed(s.queue, LIGHTS_OFF)
  {
    var t := AddMsg(AddMsg(s, OffLLights), OffRLights);
    assert LIGHTS_OFF[1..] == [OffRLights, OffLights, OffRunningLights, OffFan];
    PushedNext(s, LIGHTS_OFF);
    PushedNext(AddMsg(s, OffLLights), [OffRLights, OffLights, OffRunningLights, OffFan]);
    assert [OffRLights, OffLights, OffRunningLights, OffFan][1..] == [OffLights, OffRunningLights, OffFan];
    LastThreePushed(t);
  }

  lemma LastThreePushed(s: State)
    requires Shape(s)
    ensures AddMsg(AddMsg(AddMsg(s, OffLights), OffRunningLights), OffFan).queue
            == Pushed(s.queue, [OffLights, OffRunningLights, OffFan])
  {
    var t := AddMsg(s, OffLights);
    PushedNext(s, [OffLights, OffRunningLights, OffFan]);
    assert [OffLights, OffRunningLights, OffFan][1..] == [OffRunningLights, OffFan];
    PushedNext(t, [OffRunningLights, OffFan]);
    assert [OffRunningLights, OffFan][1..] == [OffFan];
    PushedNext(AddMsg(t, OffRunningLights), [OffFan]);
    assert [OffFan][1..] == [];
    PushedNone(AddMsg(AddMsg(t, OffRunningLights), OffFan).queue);
  }

  /** What a second puts into the queue: the lights go on in second 15 of every running hour, and off
      with the last second of the countdown. */
  lemma SecondQueues(s: State)
    requires Shape(s) && ClockOk(s)
    ensures Next(s, Second).queue
            == if s.engineRunning && (RunningTime(s) + 1) % 3600 == 15 then Pushed(s.queue, LIGHTS_ON)
               else if !s.engineRunning && s.countdown == 1 then Pushed(s.queue, LIGHTS_OFF)
               else s.queue
  {
    TickIsClock(s);
    if s.engineRunning {
      RunningQueues(s);
    } else if s.countdown == 1 {
      QueueLightsOffPushes(ResetTime(s).(countdown := 0));
    }
  }

  lemma RunningQueues(s: State)
    requires Shape(s) && ClockOk(s)
    ensures TickRunning(s).queue
            == if (RunningTime(s) + 1) % 3600 == 15 then Pushed(s.queue, LIGHTS_ON) else s.queue
  {
    var t := AdvanceTime(s);
    AdvanceCounts(s);
    QuarterMinute(t.hours, t.minutes, t.seconds);
    QueueLightsOnPushes(t);
  }

  lemma QuarterMinute(h: nat, m: nat, s: nat)
    requires m < 60 && s < 60
    ensures (3600 * h + 60 * m + s) % 3600 == 15 <==> m == 0 && s == 15
  {
    assert (3600 * h + 60 * m + s) % 3600 == 60 * m + s;
  }

  /** Neither does START_SEQ set the engine running in this run, nor SHUTDOWN the countdown. */
  predicate Undisturbed(s: State, es: seq<Event>)
    requires Shape(s) && AllLegal(es)
    decreases es
  {
    es != [] ==> !EndsPause(s, es[0]) && Undisturbed(Next(s, es[0]), es[1..])
  }

  lemma CountdownNext(s: State, e: Event)
    requires Shape(s) && Legal(e) && !s.engineRunning
    requires !EndsPause(s, e)
    ensures var t := Next(s, e);
            !t.engineRunning && t.countdown == if e.Second? && s.countdown > 0 then s.countdown - 1 else s.countdown
  {
    match e {
      case Second =>
        TickIsClock(s);
        RunningKept(s);
      case Serve => ServeClock(s);
      case _ => OthersClock(s, e);
    }
  }

  lemma {:induction false} CountdownRuns(s: State, es: seq<Event>)
    requires Shape(s) && AllLegal(es) && !s.engineRunning && Undisturbed(s, es)
    ensures var t, n := Exec(s, es), EngineSafety.Seconds(es);
            !t.engineRunning && t.countdown == if n < s.countdown then s.countdown - n else 0
    decreases es
  {
    if es != [] {
      CountdownNext(s, es[0]);
      CountdownRuns(Next(s, es[0]), es[1..]);
    }
  }

  /** Main result: after SHUTDOWN the lights' messages are queued in second number lights_on_delay,
      never with a delay of zero, and only once. */
  lemma LightsAfterShutdown(s: State, es: seq<Event>)
    requires Shape(s) && AllLegal(es) && ClockOk(s) && !s.engineRunning && s.control.StoppingPump?
    requires Undisturbed(StopPump(s), es)
    ensures
      var t := Exec(StopPump(s), es);
      Next(t, Second).queue
      == if EngineSafety.Seconds(es) + 1 == s.lightsOnDelay then Pushed(t.queue, LIGHTS_OFF) else t.queue
  {
    CountdownRuns(StopPump(s), es);
    ClockCounts(StopPump(s), es);
    SecondQueues(Exec(StopPump(s), es));
  }
}
