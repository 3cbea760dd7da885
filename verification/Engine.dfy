// The relay output engine of thread_io/tasks.c as a state machine: input edges,
// queued commands and the one-second tick, each one atomic step.

module Engine {
  import opened Bits
  import opened Relays
  import opened Records

  // Output ports with a role of their own (mytypes.h, output_types).
  const STARTER := 0
  const ACCON := 1
  const FUELPUMP := 2
  const COOLINGFAN := 3
  const LHEADLAMP := 4
  const RHEADLAMP := 5
  const RUNNINGLIGHTS := 6
  const LBRIGHTS := 16
  const RBRIGHTS := 17
  const WWIPER1 := 21
  const WWIPER2 := 22
  const TESTOUTPUT27 := 30

  // Inputs (input_types).
  const HEADLAMP_INPUT := 0
  const RUNNING_LIGHTS_INPUT := 1
  const LEFTBLINKER_INPUT := 2
  const RIGHTBLINKER_INPUT := 3
  const BRIGHTS_INPUT := 4
  const STARTER_INPUT := 5
  const COOLINGFAN_INPUT := 6
  const BRAKE_INPUT := 8

  const MSG_QUEUE_SIZE := 50

  /** The commands basic_controls_task acts on; Other is any code it ignores here. */
  datatype Cmd =
    | EnableStart | StarterOff | OnAcc | OffAcc | OnFuelPump | OffFuelPump | OnFan | OffFan
    | OnLights | OffLights | OnLLights | OffLLights | OnRLights | OffRLights
    | OnRunningLights | OffRunningLights | SpecialCmd | OnBrights | OffBrights
    | OnRBrights | OffRBrights | OnLBrights | OffLBrights | TestLeftBlinker | TestRightBlinker
    | OnBrakes | OffBrakes | Wiper1 | Wiper2 | WiperOff | StartSeq | Shutdown | EstopSignal
    | Other(code: Uchar)

  /** One entry of the inverted index ip[]. */
  datatype Ip = Ip(input: nat, port: nat)

  /** Where basic_controls_task stands: waiting for a message, or in a pause of START_SEQ or SHUTDOWN
      with the step named still to come. */
  datatype Control = Ready | ReleasingStarter | PressingStarter | StoppingPump

  /** `recs` is the list of output records by index, `out` the relays as the shadow
      bytes have them, `driven` the banks already sent to the card. */
  datatype State = State(
    recs: seq<Rec>, out: seq<bool>, driven: set<nat>, ip: seq<Ip>,
    inport: seq<Byte>, fake1: seq<Byte>, fake2: seq<Byte>, queue: seq<Cmd>,
    engineRunning: bool, seconds: nat, minutes: nat, hours: nat, countdown: nat, lightsOnDelay: nat,
    leftBlinkerTest: bool, rightBlinkerTest: bool, control: Control)

  /** The shape every step keeps: 40 records, each under its own port number. */
  predicate Shape(s: State) {
    && |s.recs| == NUM_DATA_RECS && |s.out| == NUM_DATA_RECS
    && (forall k: nat :: k < NUM_DATA_RECS ==> s.recs[k].port == k)
    && |s.inport| == NUM_PORTS && |s.fake1| == NUM_PORTS && |s.fake2| == NUM_PORTS
    && (forall j :: 0 <= j < |s.ip| ==> s.ip[j].port < NUM_DATA_RECS)
  }

  // ---------- operations ----------

  /** change_output and the register write behind it. */
  function SetRelay(s: State, port: nat, on: bool): (r: State)
    requires Shape(s) && port < NUM_DATA_RECS
    ensures Shape(r)
  {
    s.(out := s.out[port := on], driven := s.driven + {Bank(port)})
  }

  /** ollist_insert_data under the record's own port. */
  function Insert(s: State, r: Rec): (t: State)
    requires Shape(s) && r.port < NUM_DATA_RECS
    ensures Shape(t)
  {
    s.(recs := s.recs[r.port := r])
  }

  /** add_msg_queue: a stack, full at 50. */
  function AddMsg(s: State, cmd: Cmd): (r: State)
    requires Shape(s)
    ensures Shape(r)
  {
    if |s.queue| < MSG_QUEUE_SIZE then s.(queue := s.queue + [cmd]) else s
  }

  /** change_input: set a bit of the simulated inputs. */
  function ChangeInput(s: State, input: nat, on: bool): (r: State)
    requires Shape(s) && input < NUM_DATA_RECS
    ensures Shape(r)
  {
    var bank := Bank(input);
    s.(fake2 := s.fake2[bank := SetBit(s.fake2[bank], Index(input), on)])
  }

  /** What set_output does to the record it is given. */
  function OutputRec(r: Rec, onoff: Uchar): Rec {
    match r.kind
    case 0 => r.(onoff := if r.polarity == 1 then (if onoff == 1 then 0 else 1) else onoff)
    case 1 =>
      if r.reset == 0 then r.(reset := 1, onoff := Toggle(r.onoff))
      else if r.reset == 1 then r.(reset := 0)
      else r
    case 2 => if r.reset == 0 then r.(reset := 1, timeLeft := r.timeDelay, onoff := 1) else r
    case 3 => if r.reset == 0 then r.(reset := 1, timeLeft := r.timeDelay, onoff := 1) else r
    case 4 =>
      if r.reset == 0 then r.(reset := 1, onoff := 0)
      else if r.reset == 1 then r.(reset := 3)
      else r
    case _ => r
  }

  /** Does set_output also write the relay? */
  predicate OutputFires(r: Rec) {
    r.kind == 0 || (1 <= r.kind <= 4 && r.reset == 0)
  }

  function SetOutput(s: State, port: nat, onoff: Uchar): (t: State)
    requires Shape(s) && port < NUM_DATA_RECS
    ensures Shape(t)
  {
    var r := OutputRec(s.recs[port], onoff);
    var t := Insert(s, r);
    if OutputFires(s.recs[port]) then
      var u := SetRelay(t, port, r.onoff != 0);
      if r.kind == 4 then AddMsg(u, EstopSignal) else u
    else t
  }

  /** The loop over ip[]: every output assigned to this input. */
  function Drive(s: State, ip: seq<Ip>, input: nat, onoff: Uchar): (t: State)
    requires Shape(s) && forall j :: 0 <= j < |ip| ==> ip[j].port < NUM_DATA_RECS
    ensures Shape(t)
    decreases |ip|
  {
    if ip == [] then s
    else
      Drive(if ip[0].input == input then SetOutput(s, ip[0].port, onoff) else s, ip[1..], input, onoff)
  }

  /** The search loop over real_banks from entry i on; it overwrites the index it compares with. */
  function SearchFrom(bank: nat, index: nat, i: nat): nat
    requires i <= NUM_DATA_RECS
    decreases NUM_DATA_RECS - i
  {
    if i == NUM_DATA_RECS then index
    else SearchFrom(bank, if Bank(i) == bank && Index(i) == index then i else index, i + 1)
  }

  /** What the two monitor tasks make of a changed byte: the input number and its new state. */
  function ChangedInput(bank: nat, mask: Byte): nat {
    SearchFrom(bank, TopBit(mask), 0)
  }

  function ChangedState(mask: Byte, result: Byte): Uchar {
    if mask & result == mask then 1 else 0
  }

  /** Both monitor tasks drive the outputs of the input behind the changed bit. */
  function React(s: State, bank: nat, mask: Byte, result: Byte): (t: State)
    requires Shape(s)
    ensures Shape(t)
  {
    Drive(s, s.ip, ChangedInput(bank, mask), ChangedState(mask, result))
  }

  /** Nothing changed, or a change of bit 7 together with others ("bad mask"). */
  predicate Ignored(mask: Byte) {
    mask == 0 || mask > 0x80
  }

  function Changed(s: State, bank: nat, mask: Byte, result: Byte): (t: State)
    requires Shape(s) && bank < NUM_PORTS
    ensures Shape(t)
  {
    if Ignored(mask) then s
    else React(s, bank, mask, result).(inport := s.inport[bank := result])
  }

  /** One pass of monitor_input_task over a bank that reads `raw`. */
  function Edge(s: State, bank: nat, raw: Byte): (t: State)
    requires Shape(s) && bank < NUM_PORTS
    ensures Shape(t)
  {
    Changed(s, bank, !raw ^ s.inport[bank], !raw)
  }

  /** The simulated byte is written back with the changed bits all on or all off. */
  function Rewritten(mask: Byte, result: Byte): Byte {
    if ChangedState(mask, result) == 1 then result | mask else result & !mask
  }

  function FakeChanged(s: State, bank: nat, mask: Byte, result: Byte): (t: State)
    requires Shape(s) && bank < NUM_PORTS
    ensures Shape(t)
  {
    if Ignored(mask) then s
    else
      var byte := Rewritten(mask, result);
      React(s, bank, mask, result).(fake1 := s.fake1[bank := byte], fake2 := s.fake2[bank := byte])
  }

  /** One pass of monitor_fake_input_task over a bank. */
  function FakeScan(s: State, bank: nat): (t: State)
    requires Shape(s) && bank < NUM_PORTS
    ensures Shape(t)
  {
    FakeChanged(s, bank, s.fake2[bank] ^ s.fake1[bank], s.fake2[bank])
  }

  // ---------- the tick ----------

  /** time_left--, in 32 bits. */
  function Decrement(left: Uint): Uint {
    if left == 0 then 0xFFFF_FFFF else left - 1
  }

  /** (time_delay - time_left) % 2 in 32-bit arithmetic. */
  function Phase(r: Rec): int {
    (r.timeDelay - r.timeLeft) % 2
  }

  predicate Running(r: Rec) {
    (r.kind == 2 || r.kind == 3) && r.reset == 1
  }

  /** The simulated input with the port's number is switched off as well. */
  function ClearSimulated(s: State, port: nat): (t: State)
    requires Shape(s) && port < NUM_DATA_RECS
    ensures Shape(t)
  {
    var bank := Bank(port);
    s.(fake1 := s.fake1[bank := SetBit(s.fake1[bank], Index(port), false)],
       fake2 := s.fake2[bank := SetBit(s.fake2[bank], Index(port), false)])
  }

  /** The record after one second of a running output. */
  function TickRec(r: Rec): Rec {
    var left := Decrement(r.timeLeft);
    if left != 0 then r.(timeLeft := left) else r.(timeLeft := 0, onoff := 0, reset := 0)
  }

  /** A blinking output shows the parity of its time. */
  function Blink(s: State, port: nat): (t: State)
    requires Shape(s) && port < NUM_DATA_RECS
    ensures Shape(t)
  {
    if s.recs[port].kind == 3 then SetRelay(s, port, Phase(s.recs[port]) != 0) else s
  }

  /** The end of an output's time; u is its record afterwards. */
  function Expire(s: State, u: Rec): (t: State)
    requires Shape(s) && u.port < NUM_DATA_RECS
    ensures Shape(t)
  {
    ClearSimulated(Insert(SetRelay(s, u.port, false), u), u.port)
  }

  function TickOutput(s: State, port: nat): (t: State)
    requires Shape(s) && port < NUM_DATA_RECS
    ensures Shape(t)
  {
    var r := s.recs[port];
    if !Running(r) then s
    else if Decrement(r.timeLeft) != 0 then Insert(Blink(s, port), TickRec(r))
    else Expire(Blink(s, port), TickRec(r))
  }

  /** The loop over the timed outputs, from port i on. */
  function TickOutputs(s: State, i: nat): (t: State)
    requires Shape(s) && i <= TESTOUTPUT27
    ensures Shape(t)
    decreases TESTOUTPUT27 - i
  {
    if i == TESTOUTPUT27 then s else TickOutputs(TickOutput(s, i), i + 1)
  }

  function QueueLightsOn(s: State): (t: State)
    requires Shape(s)
    ensures Shape(t)
  {
    AddMsg(AddMsg(s, OnLights), OnRunningLights)
  }

  function QueueLightsOff(s: State): (t: State)
    requires Shape(s)
    ensures Shape(t)
  {
    AddMsg(AddMsg(AddMsg(AddMsg(AddMsg(s, OffLLights), OffRLights), OffLights), OffRunningLights), OffFan)
  }

  /** One second of the engine's running time. */
  function AdvanceTime(s: State): (t: State)
    requires Shape(s)
    ensures Shape(t)
  {
    if s.seconds < 59 then s.(seconds := s.seconds + 1)
    else if s.minutes < 59 then s.(seconds := 0, minutes := s.minutes + 1)
    else s.(seconds := 0, minutes := 0, hours := s.hours + 1)
  }

  /** The running time, with the lights that go on in its 15th second of every hour. */
  function TickRunning(s: State): (t: State)
    requires Shape(s)
    ensures Shape(t)
  {
    var t := AdvanceTime(s);
    if t.minutes == 0 && t.seconds == 15 then QueueLightsOn(t) else t
  }

  function ResetTime(s: State): (t: State)
    requires Shape(s)
    ensures Shape(t)
  {
    s.(seconds := 0, minutes := 0, hours := 0)
  }

  function CountDownLights(s: State): (t: State)
    requires Shape(s)
    ensures Shape(t)
  {
    if s.countdown == 0 then s
    else if s.countdown == 1 then QueueLightsOff(s.(countdown := 0))
    else s.(countdown := s.countdown - 1)
  }

  /** The lights' countdown after the engine stopped. */
  function TickCountdown(s: State): (t: State)
    requires Shape(s)
    ensures Shape(t)
  {
    CountDownLights(ResetTime(s))
  }

  function TickClock(s: State): (t: State)
    requires Shape(s)
    ensures Shape(t)
  {
    if s.engineRunning then TickRunning(s) else TickCountdown(s)
  }

  /** A blinker test ends with the next second. */
  function TickBlinkerTests(s: State): (t: State)
    requires Shape(s)
    ensures Shape(t)
  {
    var t := if s.leftBlinkerTest then ChangeInput(s, LEFTBLINKER_INPUT, false) else s;
    var u := if s.rightBlinkerTest then ChangeInput(t, RIGHTBLINKER_INPUT, false) else t;
    u.(leftBlinkerTest := false, rightBlinkerTest := false)
  }

  /** One second of timer_task. */
  function Tick(s: State): (t: State)
    requires Shape(s)
    ensures Shape(t)
  {
    TickOutputs(TickBlinkerTests(TickClock(s)), STARTER)
  }

  // ---------- commands ----------

  /** Writes only the record's state, not the relay. */
  function SetOnoff(s: State, port: nat, onoff: Uchar): (t: State)
    requires Shape(s) && port < NUM_DATA_RECS
    ensures Shape(t)
  {
    Insert(s, s.recs[port].(onoff := onoff))
  }

  /** The part of START_SEQ that clears the latch of one relay. */
  function Restart(s: State, port: nat): (t: State)
    requires Shape(s) && port < NUM_DATA_RECS
    ensures Shape(t)
  {
    Insert(SetRelay(s, port, true), s.recs[port].(onoff := 1, reset := 0))
  }

  const SPECIAL: seq<(nat, Uchar)> := [
    (LHEADLAMP, 1), (LBRIGHTS, 1), (RHEADLAMP, 1), (RBRIGHTS, 1),
    (LBRIGHTS, 0), (LHEADLAMP, 0), (RBRIGHTS, 0), (RHEADLAMP, 0),
    (RHEADLAMP, 1), (RBRIGHTS, 1), (LHEADLAMP, 1), (LBRIGHTS, 1),
    (LBRIGHTS, 0), (LHEADLAMP, 0), (RBRIGHTS, 0), (RHEADLAMP, 0)]

  function SetOutputs(s: State, ws: seq<(nat, Uchar)>): (t: State)
    requires Shape(s) && forall j :: 0 <= j < |ws| ==> ws[j].0 < NUM_DATA_RECS
    ensures Shape(t)
    decreases |ws|
  {
    if ws == [] then s else SetOutputs(SetOutput(s, ws[0].0, ws[0].1), ws[1..])
  }

  function StartMains(s: State): (t: State)
    requires Shape(s)
    ensures Shape(t)
  {
    Restart(Restart(s, ACCON), FUELPUMP)
  }

  /** START_SEQ after its first pause: the starter's simulated input goes off ... */
  function ReleaseStarter(s: State): (t: State)
    requires Shape(s)
    ensures Shape(t)
  {
    ChangeInput(s, STARTER_INPUT, false).(control := PressingStarter)
  }

  /** ... and on again after the second one. */
  function PressStarter(s: State): (t: State)
    requires Shape(s)
    ensures Shape(t)
  {
    ChangeInput(s, STARTER_INPUT, true).(engineRunning := true, control := Ready)
  }

  /** The part of SHUTDOWN that ends the running time. */
  function StopClock(s: State): (t: State)
    requires Shape(s)
    ensures Shape(t)
  {
    ResetTime(s).(engineRunning := false)
  }

  function StopMain(s: State, port: nat): (t: State)
    requires Shape(s) && port < NUM_DATA_RECS
    ensures Shape(t)
  {
    SetOnoff(SetRelay(s, port, false), port, 0)
  }

  /** SHUTDOWN after its pause. */
  function StopPump(s: State): (t: State)
    requires Shape(s)
    ensures Shape(t)
  {
    StopMain(s, FUELPUMP).(countdown := s.lightsOnDelay, control := Ready)
  }

  /** The switch of basic_controls_task. */
  function Command(s: State, cmd: Cmd): (t: State)
    requires Shape(s)
    ensures Shape(t)
  {
    match cmd
    case EnableStart => ChangeInput(s, STARTER_INPUT, true)
    case StarterOff => ChangeInput(s, STARTER_INPUT, false)
    case OnAcc => if s.recs[ACCON].reset == 0 then SetRelay(s, ACCON, true) else s
    case OffAcc => if s.recs[ACCON].reset == 0 then SetRelay(s, ACCON, false) else s
    case OnFuelPump =>
      if s.recs[FUELPUMP].reset == 0 then SetOnoff(SetRelay(s, FUELPUMP, true), FUELPUMP, 1) else s
    case OffFuelPump =>
      if s.recs[FUELPUMP].reset == 0 then SetOnoff(SetRelay(s, FUELPUMP, false), FUELPUMP, 0) else s
    case OnFan => SetOnoff(ChangeInput(s, COOLINGFAN_INPUT, true), COOLINGFAN, 1)
    case OffFan => SetOnoff(ChangeInput(s, COOLINGFAN_INPUT, false), COOLINGFAN, 0)
    case OnLights => SetOnoff(SetOnoff(ChangeInput(s, HEADLAMP_INPUT, true), LHEADLAMP, 1), RHEADLAMP, 1)
    case OffLights => SetOnoff(SetOnoff(ChangeInput(s, HEADLAMP_INPUT, false), LHEADLAMP, 0), RHEADLAMP, 0)
    case OnLLights => SetOutput(s, LHEADLAMP, 1)
    case OffLLights => SetOutput(s, LHEADLAMP, 0)
    case OnRLights => SetOutput(s, RHEADLAMP, 1)
    case OffRLights => SetOutput(s, RHEADLAMP, 0)
    case OnRunningLights => SetOnoff(ChangeInput(s, RUNNING_LIGHTS_INPUT, true), RUNNINGLIGHTS, 1)
    case OffRunningLights => SetOnoff(ChangeInput(s, RUNNING_LIGHTS_INPUT, false), RUNNINGLIGHTS, 0)
    case SpecialCmd => SetOutputs(SetOutputs(s, SPECIAL), SPECIAL)
    case OnBrights => SetOnoff(SetOnoff(ChangeInput(s, BRIGHTS_INPUT, true), LBRIGHTS, 1), RBRIGHTS, 1)
    case OffBrights => SetOnoff(SetOnoff(ChangeInput(s, BRIGHTS_INPUT, false), LBRIGHTS, 0), RBRIGHTS, 0)
    case OnRBrights => SetOutput(s, RBRIGHTS, 1)
    case OffRBrights => SetOutput(s, RBRIGHTS, 0)
    case OnLBrights => SetOutput(s, LBRIGHTS, 1)
    case OffLBrights => SetOutput(s, LBRIGHTS, 0)
    case TestLeftBlinker => ChangeInput(s, LEFTBLINKER_INPUT, true).(leftBlinkerTest := true)
    case TestRightBlinker => ChangeInput(s, RIGHTBLINKER_INPUT, true).(rightBlinkerTest := true)
    case OnBrakes => ChangeInput(s, BRAKE_INPUT, true)
    case OffBrakes => ChangeInput(s, BRAKE_INPUT, false)
    case Wiper1 => SetOutput(SetOutput(s, WWIPER1, 1), WWIPER2, 0)
    case Wiper2 => SetOutput(SetOutput(s, WWIPER1, 1), WWIPER2, 1)
    case WiperOff => SetOutput(SetOutput(s, WWIPER1, 0), WWIPER2, 0)
    case StartSeq => StartMains(s).(control := ReleasingStarter)
    case Shutdown => StopMain(StopClock(s), ACCON).(control := StoppingPump)
    case EstopSignal => s
    case Other(_) => s
  }

  /** get_msg_queue takes the message added last. */
  function ServeMessage(s: State): (t: State)
    requires Shape(s)
    ensures Shape(t)
  {
    if s.queue == [] then s
    else Command(s.(queue := s.queue[..|s.queue| - 1]), s.queue[|s.queue| - 1])
  }

  /** The next step of basic_controls_task. */
  function Dispatch(s: State): (t: State)
    requires Shape(s)
    ensures Shape(t)
  {
    match s.control
    case Ready => ServeMessage(s)
    case ReleasingStarter => ReleaseStarter(s)
    case PressingStarter => PressStarter(s)
    case StoppingPump => StopPump(s)
  }

  // ---------- runs ----------

  datatype Event =
    | InputEdge(bank: nat, raw: Byte)  // the input task reads a bank
    | FakeInputs(bank: nat)            // the simulated-input task scans a bank
    | Second                           // the timer task's second
    | Post(cmd: Cmd)                   // a host or serial message is queued
    | Serve                            // the control task serves a message, or ends a pause

  predicate Legal(e: Event) {
    (e.InputEdge? || e.FakeInputs?) ==> e.bank < NUM_PORTS
  }

  function Next(s: State, e: Event): (t: State)
    requires Shape(s) && Legal(e)
    ensures Shape(t)
  {
    match e
    case InputEdge(bank, raw) => Edge(s, bank, raw)
    case FakeInputs(bank) => FakeScan(s, bank)
    case Second => Tick(s)
    case Post(cmd) => AddMsg(s, cmd)
    case Serve => Dispatch(s)
  }

  predicate AllLegal(es: seq<Event>) {
    forall j :: 0 <= j < |es| ==> Legal(es[j])
  }

  function Exec(s: State, es: seq<Event>): (t: State)
    requires Shape(s) && AllLegal(es)
    ensures Shape(t)
    decreases es
  {
    if es == [] then s else Exec(Next(s, es[0]), es[1..])
  }
}

// What every single step of the engine keeps, seen from one port: a shut latch, a
// running timer, the configuration.

module EngineSteps {
  import opened Bits
  import opened Relays
  import opened Records
  import opened Engine

  /** Relays that commands switch without going through set_output. */
  predicate IsMainRelay(port: nat) {
    port == ACCON || port == FUELPUMP
  }

  /** Outputs whose record state a command may write directly. */
  predicate IsWrittenDirectly(port: nat) {
    IsMainRelay(port) || port in {COOLINGFAN, LHEADLAMP, RHEADLAMP, RUNNINGLIGHTS, LBRIGHTS, RBRIGHTS}
  }

  /** A timed or blinking output the tick visits and only set_output starts. */
  predicate IsTimed(r: Rec, port: nat) {
    (r.kind == 2 || r.kind == 3) && port < TESTOUTPUT27 && !IsMainRelay(port)
  }

  const WRAP := 0x1_0000_0000

  /** For how many seconds a 32-bit counter runs that is decremented before it is compared with 0. */
  function Seconds32(counter: Uint): (n: nat)
    ensures 1 <= n <= WRAP
  {
    if counter == 0 then WRAP else counter
  }

  /** The seconds a running output has left, and the seconds it gets when it is triggered. */
  function Remaining(r: Rec): nat { Seconds32(r.timeLeft) }

  function Period(r: Rec): nat { Seconds32(r.timeDelay) }

  /** A timed or blinking output beyond the ports the tick visits. */
  predicate IsStranded(r: Rec, port: nat) {
    (r.kind == 2 || r.kind == 3) && port >= TESTOUTPUT27
  }

  /** An emergency stop that has fired: its relay is off, on the card too. */
  predicate LatchOk(r: Rec, on: bool, driven: bool) {
    Latched(r) ==> !on && driven
  }

  /** A timed output runs iff its time is not over, and its relay shows it: on for
      type 2, alternating from on for type 3. */
  predicate TimerOk(r: Rec, p: nat, on: bool) {
    IsTimed(r, p) ==>
      && r.reset <= 1
      && (r.reset == 1 ==> Remaining(r) <= Period(r) && on == (r.kind == 2 || Phase(r) == 0))
      && (r.reset == 0 ==> !on)
      && (!IsWrittenDirectly(p) ==> (r.onoff == 1 <==> r.reset == 1))
  }

  predicate StrandedOk(r: Rec, p: nat, on: bool) {
    IsStranded(r, p) ==> r.reset <= 1 && (on <==> r.reset == 1)
  }

  predicate PortOk(r: Rec, p: nat, on: bool, driven: bool) {
    LatchOk(r, on, driven) && TimerOk(r, p, on) && StrandedOk(r, p, on)
  }

  predicate PortInv(s: State, p: nat)
    requires Shape(s) && p < NUM_DATA_RECS
  {
    PortOk(s.recs[p], p, s.out[p], Bank(p) in s.driven)
  }

  /** The configuration part of a record; only the run-time part ever changes. */
  predicate SameConfig(r: Rec, t: Rec) {
    t == r.(onoff := t.onoff, timeLeft := t.timeLeft, reset := t.reset)
  }

  predicate Latched(r: Rec) {
    r.kind == 4 && r.reset != 0
  }

  predicate Counting(r: Rec, p: nat) {
    IsTimed(r, p) && r.reset == 1
  }

  predicate CalmRec(r: Rec, u: Rec, p: nat) {
    && SameConfig(r, u)
    && (Latched(r) ==> Latched(u))
    && (Counting(r, p) ==> u.reset == 1 && u.timeLeft == r.timeLeft)
    && (IsTimed(r, p) && u.reset == 0 ==> r.reset == 0 && u.timeLeft == r.timeLeft)
    && (IsStranded(r, p) && r.reset == 1 ==> u.reset == 1)
  }

  /** From s to t port p keeps its invariant and configuration, a latch stays shut
      and a running timer keeps its time. */
  predicate Calm(s: State, t: State, p: nat)
    requires Shape(s) && Shape(t) && p < NUM_DATA_RECS
  {
    PortInv(t, p) && CalmRec(s.recs[p], t.recs[p], p) && t.ip == s.ip
  }

  /** Input bytes, messages and clocks do not concern a port. */
  predicate SameOutputs(s: State, t: State) {
    t.recs == s.recs && t.out == s.out && t.driven == s.driven && t.ip == s.ip
  }

  lemma SameOutputsCalm(s: State, t: State, u: State, p: nat)
    requires Shape(s) && Shape(t) && Shape(u) && p < NUM_DATA_RECS
    requires Calm(s, t, p) && SameOutputs(t, u)
    ensures Calm(s, u, p)
  {
  }

  lemma ChangeInputOutputs(s: State, input: nat, on: bool)
    requires Shape(s) && input < NUM_DATA_RECS
    ensures SameOutputs(s, ChangeInput(s, input, on))
  {
  }

  lemma OutputRecCalm(r: Rec, p: nat, on: bool, driven: bool, onoff: Uchar)
    requires PortOk(r, p, on, driven)
    ensures
      var u := OutputRec(r, onoff);
      && CalmRec(r, u, p)
      && (if OutputFires(r) then PortOk(u, p, u.onoff != 0, true) else PortOk(u, p, on, driven))
  {
  }

  lemma SetOutputPort(s: State, port: nat, onoff: Uchar, p: nat)
    requires Shape(s) && port < NUM_DATA_RECS && p < NUM_DATA_RECS
    ensures
      var t, r := SetOutput(s, port, onoff), s.recs[p];
      && t.ip == s.ip && s.driven <= t.driven
      && t.recs[p] == (if p == port then OutputRec(r, onoff) else r)
      && t.out[p] == (if p == port && OutputFires(r) then OutputRec(r, onoff).onoff != 0 else s.out[p])
      && (p == port && OutputFires(r) ==> Bank(p) in t.driven)
  {
  }

  /** More banks driven is no harm. */
  lemma DrivenGrows(r: Rec, p: nat, on: bool, driven: bool, more: bool)
    requires PortOk(r, p, on, driven) && (driven ==> more)
    ensures PortOk(r, p, on, more)
  {
  }

  lemma SetOutputCalm(s: State, port: nat, onoff: Uchar, p: nat)
    requires Shape(s) && port < NUM_DATA_RECS && p < NUM_DATA_RECS && PortInv(s, p)
    ensures Calm(s, SetOutput(s, port, onoff), p)
  {
    var t, r := SetOutput(s, port, onoff), s.recs[p];
    SetOutputPort(s, port, onoff, p);
    OutputRecCalm(r, p, s.out[p], Bank(p) in s.driven, onoff);
    DrivenGrows(t.recs[p], p, t.out[p],
                if p == port && OutputFires(r) then true else Bank(p) in s.driven, Bank(p) in t.driven);
  }

  lemma {:induction false} SetOutputsCalm(s: State, ws: seq<(nat, Uchar)>, p: nat)
    requires Shape(s) && (forall j :: 0 <= j < |ws| ==> ws[j].0 < NUM_DATA_RECS)
    requires p < NUM_DATA_RECS && PortInv(s, p)
    ensures Calm(s, SetOutputs(s, ws), p)
    decreases |ws|
  {
    if ws != [] {
      SetOutputCalm(s, ws[0].0, ws[0].1, p);
      SetOutputsCalm(SetOutput(s, ws[0].0, ws[0].1), ws[1..], p);
    }
  }

  lemma {:induction false} DriveCalm(s: State, ip: seq<Ip>, input: nat, onoff: Uchar, p: nat)
    requires Shape(s) && (forall j :: 0 <= j < |ip| ==> ip[j].port < NUM_DATA_RECS)
    requires p < NUM_DATA_RECS && PortInv(s, p)
    ensures Calm(s, Drive(s, ip, input, onoff), p)
    decreases |ip|
  {
    if ip != [] {
      var t := if ip[0].input == input then SetOutput(s, ip[0].port, onoff) else s;
      SetOutputCalm(s, ip[0].port, onoff, p);
      DriveCalm(t, ip[1..], input, onoff, p);
    }
  }

  /** A command switches a main relay on only when its latch is open. */
  lemma SetRelayCalm(s: State, port: nat, on: bool, p: nat)
    requires Shape(s) && p < NUM_DATA_RECS && PortInv(s, p)
    requires IsMainRelay(port) && (on ==> s.recs[port].reset == 0)
    ensures Calm(s, SetRelay(s, port, on), p)
  {
  }

  lemma SetOnoffCalm(s: State, port: nat, onoff: Uchar, p: nat)
    requires Shape(s) && p < NUM_DATA_RECS && PortInv(s, p)
    requires IsWrittenDirectly(port)
    ensures Calm(s, SetOnoff(s, port, onoff), p)
  {
  }

  /** START_SEQ opens a main relay's latch and leaves the other ports alone. */
  lemma RestartPort(s: State, port: nat, p: nat)
    requires Shape(s) && p < NUM_DATA_RECS && PortInv(s, p) && IsMainRelay(port)
    ensures var t := Restart(s, port);
            && PortInv(t, p) && SameConfig(s.recs[p], t.recs[p]) && t.ip == s.ip
            && (if p == port then t.recs[p].reset == 0 && t.out[p] else Calm(s, t, p))
  {
  }

  /** The lamp commands simulate an input and write two records' states. */
  lemma LampsCalm(s: State, input: nat, on: bool, a: nat, b: nat, p: nat)
    requires Shape(s) && p < NUM_DATA_RECS && PortInv(s, p)
    requires input < NUM_DATA_RECS && IsWrittenDirectly(a) && IsWrittenDirectly(b)
    ensures var v := if on then 1 else 0;
            Calm(s, SetOnoff(SetOnoff(ChangeInput(s, input, on), a, v), b, v), p)
            && Calm(s, SetOnoff(ChangeInput(s, input, on), a, v), p)
            && Calm(s, ChangeInput(s, input, on), p)
  {
    var v := if on then 1 else 0;
    var t := ChangeInput(s, input, on);
    SetOnoffCalm(t, a, v, p);
    SetOnoffCalm(SetOnoff(t, a, v), b, v, p);
  }

  lemma InputCalm(s: State, input: nat, on: bool, p: nat)
    requires Shape(s) && p < NUM_DATA_RECS && PortInv(s, p) && input < NUM_DATA_RECS
    ensures Calm(s, ChangeInput(s, input, on), p)
  {
  }

  /** Switching a main relay that is not latched, with its record's state or without. */
  lemma RelayOnoffCalm(s: State, port: nat, on: bool, p: nat)
    requires Shape(s) && p < NUM_DATA_RECS && PortInv(s, p)
    requires IsMainRelay(port) && (on ==> s.recs[port].reset == 0)
    ensures Calm(s, SetOnoff(SetRelay(s, port, on), port, if on then 1 else 0), p)
  {
    SetRelayCalm(s, port, on, p);
    SetOnoffCalm(SetRelay(s, port, on), port, if on then 1 else 0, p);
  }

  lemma ShutdownCalm(s: State, p: nat)
    requires Shape(s) && p < NUM_DATA_RECS && PortInv(s, p)
    ensures Calm(s, Command(s, Shutdown), p)
  {
    var t := StopClock(s);
    RelayOnoffCalm(t, ACCON, false, p);
    SameOutputsCalm(t, StopMain(t, ACCON), Command(s, Shutdown), p);
  }

  lemma StopPumpCalm(s: State, p: nat)
    requires Shape(s) && p < NUM_DATA_RECS && PortInv(s, p)
    ensures Calm(s, StopPump(s), p)
  {
    RelayOnoffCalm(s, FUELPUMP, false, p);
    SameOutputsCalm(s, StopMain(s, FUELPUMP), StopPump(s), p);
  }

  lemma StarterCalm(s: State, p: nat)
    requires Shape(s) && p < NUM_DATA_RECS && PortInv(s, p)
    ensures Calm(s, ReleaseStarter(s), p) && Calm(s, PressStarter(s), p)
  {
    InputCalm(s, STARTER_INPUT, false, p);
    SameOutputsCalm(s, ChangeInput(s, STARTER_INPUT, false), ReleaseStarter(s), p);
    InputCalm(s, STARTER_INPUT, true, p);
    SameOutputsCalm(s, ChangeInput(s, STARTER_INPUT, true), PressStarter(s), p);
  }

  /** The steps that end a pause. */
  lemma PauseCalm(s: State, p: nat)
    requires Shape(s) && p < NUM_DATA_RECS && PortInv(s, p) && !s.control.Ready?
    ensures Calm(s, Dispatch(s), p)
  {
    if s.control.StoppingPump? {
      StopPumpCalm(s, p);
    } else {
      StarterCalm(s, p);
    }
  }

  lemma MainRelayCalm(s: State, cmd: Cmd, p: nat)
    requires Shape(s) && p < NUM_DATA_RECS && PortInv(s, p)
    requires cmd.OnAcc? || cmd.OffAcc? || cmd.OnFuelPump? || cmd.OffFuelPump?
    ensures Calm(s, Command(s, cmd), p)
  {
    if cmd.OnAcc? || cmd.OffAcc? {
      if s.recs[ACCON].reset == 0 {
        SetRelayCalm(s, ACCON, cmd.OnAcc?, p);
      }
    } else if s.recs[FUELPUMP].reset == 0 {
      RelayOnoffCalm(s, FUELPUMP, cmd.OnFuelPump?, p);
    }
  }

  lemma WipersCalm(s: State, a: Uchar, b: Uchar, p: nat)
    requires Shape(s) && p < NUM_DATA_RECS && PortInv(s, p)
    ensures Calm(s, SetOutput(SetOutput(s, WWIPER1, a), WWIPER2, b), p)
  {
    SetOutputCalm(s, WWIPER1, a, p);
    SetOutputCalm(SetOutput(s, WWIPER1, a), WWIPER2, b, p);
  }

  /** START_SEQ opens both latches, switches both relays on and moves no other port. */
  predicate Started(s: State, t: State, p: nat)
    requires Shape(s) && Shape(t) && p < NUM_DATA_RECS
  {
    if IsMainRelay(p) then
      PortInv(t, p) && SameConfig(s.recs[p], t.recs[p]) && t.ip == s.ip && t.recs[p].reset == 0 && t.out[p]
    else Calm(s, t, p)
  }

  lemma StartMainsPort(s: State, p: nat)
    requires Shape(s) && p < NUM_DATA_RECS && PortInv(s, p)
    ensures Started(s, StartMains(s), p)
  {
    RestartPort(s, ACCON, p);
    RestartPort(Restart(s, ACCON), FUELPUMP, p);
  }

  lemma StartPort(s: State, p: nat)
    requires Shape(s) && p < NUM_DATA_RECS && PortInv(s, p)
    ensures Started(s, Command(s, StartSeq), p)
  {
    StartMainsPort(s, p);
    if !IsMainRelay(p) {
      SameOutputsCalm(s, StartMains(s), Command(s, StartSeq), p);
    }
  }

  predicate IsLampCommand(cmd: Cmd) {
    cmd in {OnFan, OffFan, OnLights, OffLights, OnRunningLights, OffRunningLights, OnBrights, OffBrights,
            OnLLights, OffLLights, OnRLights, OffRLights, OnRBrights, OffRBrights, OnLBrights, OffLBrights}
  }

  lemma LampCommandCalm(s: State, cmd: Cmd, p: nat)
    requires Shape(s) && p < NUM_DATA_RECS && PortInv(s, p) && IsLampCommand(cmd)
    ensures Calm(s, Command(s, cmd), p)
  {
    match cmd {
      case OnFan => LampsCalm(s, COOLINGFAN_INPUT, true, COOLINGFAN, COOLINGFAN, p);
      case OffFan => LampsCalm(s, COOLINGFAN_INPUT, false, COOLINGFAN, COOLINGFAN, p);
      case OnLights => LampsCalm(s, HEADLAMP_INPUT, true, LHEADLAMP, RHEADLAMP, p);
      case OffLights => LampsCalm(s, HEADLAMP_INPUT, false, LHEADLAMP, RHEADLAMP, p);
      case OnRunningLights => LampsCalm(s, RUNNING_LIGHTS_INPUT, true, RUNNINGLIGHTS, RUNNINGLIGHTS, p);
      case OffRunningLights => LampsCalm(s, RUNNING_LIGHTS_INPUT, false, RUNNINGLIGHTS, RUNNINGLIGHTS, p);
      case OnBrights => LampsCalm(s, BRIGHTS_INPUT, true, LBRIGHTS, RBRIGHTS, p);
      case OffBrights => LampsCalm(s, BRIGHTS_INPUT, false, LBRIGHTS, RBRIGHTS, p);
      case OnLLights => SetOutputCalm(s, LHEADLAMP, 1, p);
      case OffLLights => SetOutputCalm(s, LHEADLAMP, 0, p);
      case OnRLights => SetOutputCalm(s, RHEADLAMP, 1, p);
      case OffRLights => SetOutputCalm(s, RHEADLAMP, 0, p);
      case OnRBrights => SetOutputCalm(s, RBRIGHTS, 1, p);
      case OffRBrights => SetOutputCalm(s, RBRIGHTS, 0, p);
      case OnLBrights => SetOutputCalm(s, LBRIGHTS, 1, p);
      case OffLBrights => SetOutputCalm(s, LBRIGHTS, 0, p);
      case _ =>
    }
  }

  predicate IsInputCommand(cmd: Cmd) {
    cmd in {EnableStart, StarterOff, TestLeftBlinker, TestRightBlinker, OnBrakes, OffBrakes}
  }

  lemma InputCommandCalm(s: State, cmd: Cmd, p: nat)
    requires Shape(s) && p < NUM_DATA_RECS && PortInv(s, p) && IsInputCommand(cmd)
    ensures Calm(s, Command(s, cmd), p)
  {
    match cmd {
      case EnableStart => InputCalm(s, STARTER_INPUT, true, p);
      case StarterOff => InputCalm(s, STARTER_INPUT, false, p);
      case TestLeftBlinker => InputCalm(s, LEFTBLINKER_INPUT, true, p);
      case TestRightBlinker => InputCalm(s, RIGHTBLINKER_INPUT, true, p);
      case OnBrakes => InputCalm(s, BRAKE_INPUT, true, p);
      case OffBrakes => InputCalm(s, BRAKE_INPUT, false, p);
      case _ =>
    }
  }

  lemma CommandCalm(s: State, cmd: Cmd, p: nat)
    requires Shape(s) && p < NUM_DATA_RECS && PortInv(s, p)
    requires cmd != StartSeq || !IsMainRelay(p)
    ensures Calm(s, Command(s, cmd), p)
  {
    if IsLampCommand(cmd) {
      LampCommandCalm(s, cmd, p);
    } else if IsInputCommand(cmd) {
      InputCommandCalm(s, cmd, p);
    } else if cmd.OnAcc? || cmd.OffAcc? || cmd.OnFuelPump? || cmd.OffFuelPump? {
      MainRelayCalm(s, cmd, p);
    } else {
      match cmd {
        case SpecialCmd =>
          SetOutputsCalm(s, SPECIAL, p);
          SetOutputsCalm(SetOutputs(s, SPECIAL), SPECIAL, p);
        case Wiper1 => WipersCalm(s, 1, 0, p);
        case Wiper2 => WipersCalm(s, 1, 1, p);
        case WiperOff => WipersCalm(s, 0, 0, p);
        case StartSeq => StartPort(s, p);
        case Shutdown => ShutdownCalm(s, p);
        case _ =>
      }
    }
  }

  lemma AddMsgCalm(s: State, cmd: Cmd, p: nat)
    requires Shape(s) && p < NUM_DATA_RECS && PortInv(s, p)
    ensures Calm(s, AddMsg(s, cmd), p)
  {
  }

  lemma ReactCalm(s: State, bank: nat, mask: Byte, result: Byte, p: nat)
    requires Shape(s) && p < NUM_DATA_RECS && PortInv(s, p)
    ensures Calm(s, React(s, bank, mask, result), p)
  {
    DriveCalm(s, s.ip, ChangedInput(bank, mask), ChangedState(mask, result), p);
  }

  lemma EdgeCalm(s: State, bank: nat, raw: Byte, p: nat)
    requires Shape(s) && p < NUM_DATA_RECS && PortInv(s, p) && bank < NUM_PORTS
    ensures Calm(s, Edge(s, bank, raw), p)
  {
    ChangedCalm(s, bank, !raw ^ s.inport[bank], !raw, p);
  }

  lemma ChangedCalm(s: State, bank: nat, mask: Byte, result: Byte, p: nat)
    requires Shape(s) && p < NUM_DATA_RECS && PortInv(s, p) && bank < NUM_PORTS
    ensures Calm(s, Changed(s, bank, mask, result), p)
  {
    ReactCalm(s, bank, mask, result, p);
    if !Ignored(mask) {
      SameOutputsCalm(s, React(s, bank, mask, result), Changed(s, bank, mask, result), p);
    }
  }

  lemma FakeScanCalm(s: State, bank: nat, p: nat)
    requires Shape(s) && p < NUM_DATA_RECS && PortInv(s, p) && bank < NUM_PORTS
    ensures Calm(s, FakeScan(s, bank), p)
  {
    FakeChangedCalm(s, bank, s.fake2[bank] ^ s.fake1[bank], s.fake2[bank], p);
  }

  lemma FakeChangedCalm(s: State, bank: nat, mask: Byte, result: Byte, p: nat)
    requires Shape(s) && p < NUM_DATA_RECS && PortInv(s, p) && bank < NUM_PORTS
    ensures Calm(s, FakeChanged(s, bank, mask, result), p)
  {
    ReactCalm(s, bank, mask, result, p);
    if !Ignored(mask) {
      SameOutputsCalm(s, React(s, bank, mask, result), FakeChanged(s, bank, mask, result), p);
    }
  }

  // ---------- the tick ----------

  /** The tick's first half only queues messages and simulates inputs. */
  lemma TickPrelude(s: State)
    requires Shape(s)
    ensures SameOutputs(s, TickBlinkerTests(TickClock(s)))
  {
    ClockOutputs(s);
    var t := TickClock(s);
    ChangeInputOutputs(t, LEFTBLINKER_INPUT, false);
    ChangeInputOutputs(t, RIGHTBLINKER_INPUT, false);
    ChangeInputOutputs(ChangeInput(t, LEFTBLINKER_INPUT, false), RIGHTBLINKER_INPUT, false);
  }

  lemma ClockOutputs(s: State)
    requires Shape(s)
    ensures SameOutputs(s, TickClock(s))
  {
    if s.engineRunning {
      var t := AdvanceTime(s);
      if t.minutes == 0 && t.seconds == 15 {
        LightsOnOutputs(t);
      }
    } else if s.countdown == 1 {
      LightsOffOutputs(s.(seconds := 0, minutes := 0, hours := 0, countdown := 0));
    }
  }

  lemma AddMsgOutputs(s: State, cmd: Cmd)
    requires Shape(s)
    ensures SameOutputs(s, AddMsg(s, cmd))
  {
  }

  lemma LightsOnOutputs(s: State)
    requires Shape(s)
    ensures SameOutputs(s, QueueLightsOn(s))
  {
    AddMsgOutputs(s, OnLights);
    AddMsgOutputs(AddMsg(s, OnLights), OnRunningLights);
  }

  lemma LightsOffOutputs(s: State)
    requires Shape(s)
    ensures SameOutputs(s, QueueLightsOff(s))
  {
    var t := AddMsg(s, OffLLights);
    var u := AddMsg(t, OffRLights);
    var v := AddMsg(u, OffLights);
    AddMsgOutputs(s, OffLLights);
    AddMsgOutputs(t, OffRLights);
    AddMsgOutputs(u, OffLights);
    AddMsgOutputs(v, OffRunningLights);
    AddMsgOutputs(AddMsg(v, OffRunningLights), OffFan);
  }

  lemma ClearSimulatedOutputs(s: State, port: nat)
    requires Shape(s) && port < NUM_DATA_RECS
    ensures SameOutputs(s, ClearSimulated(s, port))
  {
  }

  /** The port is as it was. */
  predicate Untouched(s: State, t: State, p: nat)
    requires Shape(s) && Shape(t) && p < NUM_DATA_RECS
  {
    t.recs[p] == s.recs[p] && t.out[p] == s.out[p] && s.driven <= t.driven && t.ip == s.ip
  }

  lemma TickOutputOther(s: State, port: nat, p: nat)
    requires Shape(s) && p < NUM_DATA_RECS && port < NUM_DATA_RECS && p != port
    ensures Untouched(s, TickOutput(s, port), p)
  {
    TickOutputEffect(s, port, p);
  }

  lemma TickOutputEffect(s: State, port: nat, p: nat)
    requires Shape(s) && port < NUM_DATA_RECS && p < NUM_DATA_RECS
    ensures
      var t, r := TickOutput(s, port), s.recs[p];
      if p == port && Running(r) then
        && t.recs[p] == TickRec(r) && s.driven <= t.driven && t.ip == s.ip
        && t.out[p] == (if Decrement(r.timeLeft) == 0 then false else if r.kind == 3 then Phase(r) != 0 else s.out[p])
      else Untouched(s, t, p)
  {
    BlinkEffect(s, port, p);
    if Decrement(s.recs[port].timeLeft) == 0 {
      ExpireEffect(Blink(s, port), TickRec(s.recs[port]), p);
    }
  }

  lemma BlinkEffect(s: State, port: nat, p: nat)
    requires Shape(s) && port < NUM_DATA_RECS && p < NUM_DATA_RECS
    ensures
      var t := Blink(s, port);
      && t.recs == s.recs && s.driven <= t.driven && t.ip == s.ip
      && t.out[p] == if p == port && s.recs[p].kind == 3 then Phase(s.recs[p]) != 0 else s.out[p]
  {
  }

  lemma ExpireEffect(s: State, u: Rec, p: nat)
    requires Shape(s) && u.port < NUM_DATA_RECS && p < NUM_DATA_RECS
    ensures
      var t := Expire(s, u);
      && t.recs == s.recs[u.port := u] && s.driven <= t.driven && t.ip == s.ip
      && t.out[p] == (p != u.port && s.out[p])
  {
    ClearSimulatedOutputs(Insert(SetRelay(s, u.port, false), u), u.port);
  }

  /** What one second does to a record: a running timer counts down and stops at zero. */
  predicate SecondedRec(r: Rec, u: Rec, p: nat, on: bool) {
    && SameConfig(r, u)
    && (Latched(r) ==> Latched(u))
    && (Counting(r, p) && Remaining(r) > 1 ==> u.reset == 1 && Remaining(u) == Remaining(r) - 1)
    && (Counting(r, p) && Remaining(r) == 1 ==> u.reset == 0 && u.onoff == 0 && !on)
    && (IsTimed(r, p) && u.reset == 0 ==> u.timeLeft == if r.reset == 0 then r.timeLeft else 0)
    && (IsStranded(r, p) && r.reset == 1 ==> u.reset == 1)
  }

  /** One second, seen from one port. */
  predicate Seconded(s: State, t: State, p: nat)
    requires Shape(s) && Shape(t) && p < NUM_DATA_RECS
  {
    PortInv(t, p) && SecondedRec(s.recs[p], t.recs[p], p, t.out[p]) && t.ip == s.ip
  }

  lemma TickRecSeconded(r: Rec, p: nat, on: bool, driven: bool)
    requires PortOk(r, p, on, driven) && Running(r) && p < TESTOUTPUT27
    ensures
      var u := TickRec(r);
      var off := if Decrement(r.timeLeft) == 0 then false else if r.kind == 3 then Phase(r) != 0 else on;
      SecondedRec(r, u, p, off) && PortOk(u, p, off, driven)
  {
    if r.kind == 3 {
      assert (r.timeDelay - Decrement(r.timeLeft)) % 2 == 1 - Phase(r);
    }
  }

  lemma TickOutputSelf(s: State, p: nat)
    requires Shape(s) && p < TESTOUTPUT27 && PortInv(s, p)
    ensures Seconded(s, TickOutput(s, p), p)
  {
    var r, t := s.recs[p], TickOutput(s, p);
    TickOutputEffect(s, p, p);
    if Running(r) {
      TickRecSeconded(r, p, s.out[p], Bank(p) in s.driven);
    }
    DrivenGrows(t.recs[p], p, t.out[p], Bank(p) in s.driven, Bank(p) in t.driven);
  }

  /** The loop past port p does not come back to it. */
  lemma {:induction false} TickOutputsPast(s: State, i: nat, p: nat)
    requires Shape(s) && p < i <= TESTOUTPUT27
    ensures Untouched(s, TickOutputs(s, i), p)
    decreases TESTOUTPUT27 - i
  {
    if i < TESTOUTPUT27 {
      TickOutputOther(s, i, p);
      TickOutputsPast(TickOutput(s, i), i + 1, p);
    }
  }

  lemma {:induction false} TickOutputsBeyond(s: State, i: nat, p: nat)
    requires Shape(s) && TESTOUTPUT27 <= p < NUM_DATA_RECS && i <= TESTOUTPUT27
    ensures Untouched(s, TickOutputs(s, i), p)
    decreases TESTOUTPUT27 - i
  {
    if i < TESTOUTPUT27 {
      TickOutputOther(s, i, p);
      TickOutputsBeyond(TickOutput(s, i), i + 1, p);
    }
  }

  /** The loop up to port p brings it to its own turn unchanged. */
  lemma {:induction false} TickOutputsReach(s: State, i: nat, p: nat) returns (t: State)
    requires Shape(s) && i <= p < TESTOUTPUT27
    ensures Shape(t) && Untouched(s, t, p) && TickOutputs(s, i) == TickOutputs(TickOutput(t, p), p + 1)
    decreases p - i
  {
    if i == p {
      t := s;
    } else {
      TickOutputOther(s, i, p);
      t := TickOutputsReach(TickOutput(s, i), i + 1, p);
    }
  }

  lemma SecondedUntouched(s: State, t: State, u: State, v: State, p: nat)
    requires Shape(s) && Shape(t) && Shape(u) && Shape(v) && p < NUM_DATA_RECS
    requires PortInv(s, p) && Untouched(s, t, p) && Seconded(t, u, p) && Untouched(u, v, p)
    ensures Seconded(s, v, p)
  {
    DrivenGrows(u.recs[p], p, u.out[p], Bank(p) in u.driven, Bank(p) in v.driven);
  }

  /** A port without a counting timer in reach is at rest during a second. */
  lemma UntouchedSeconded(s: State, t: State, p: nat)
    requires Shape(s) && Shape(t) && TESTOUTPUT27 <= p < NUM_DATA_RECS
    requires PortInv(s, p) && Untouched(s, t, p)
    ensures Seconded(s, t, p)
  {
    DrivenGrows(s.recs[p], p, s.out[p], Bank(p) in s.driven, Bank(p) in t.driven);
  }

  lemma TickOutputsPort(s: State, p: nat)
    requires Shape(s) && p < NUM_DATA_RECS && PortInv(s, p)
    ensures Seconded(s, TickOutputs(s, STARTER), p)
  {
    if p < TESTOUTPUT27 {
      var t := TickOutputsReach(s, STARTER, p);
      DrivenGrows(s.recs[p], p, s.out[p], Bank(p) in s.driven, Bank(p) in t.driven);
      TickOutputSelf(t, p);
      TickOutputsPast(TickOutput(t, p), p + 1, p);
      SecondedUntouched(s, t, TickOutput(t, p), TickOutputs(s, STARTER), p);
    } else {
      TickOutputsBeyond(s, STARTER, p);
      UntouchedSeconded(s, TickOutputs(s, STARTER), p);
    }
  }

  lemma TickPort(s: State, p: nat)
    requires Shape(s) && p < NUM_DATA_RECS && PortInv(s, p)
    ensures Seconded(s, Tick(s), p)
  {
    TickPrelude(s);
    TickOutputsPort(TickBlinkerTests(TickClock(s)), p);
  }

  // ---------- one event ----------

  /** Does this event serve the start command? */
  predicate ServesStart(s: State, e: Event) {
    e.Serve? && s.control.Ready? && s.queue != [] && s.queue[|s.queue| - 1] == StartSeq
  }

  lemma NextPort(s: State, e: Event, p: nat)
    requires Shape(s) && Legal(e) && p < NUM_DATA_RECS && PortInv(s, p)
    ensures
      var t := Next(s, e);
      if e.Second? then Seconded(s, t, p)
      else if ServesStart(s, e) then Started(s, t, p)
      else Calm(s, t, p)
  {
    match e {
      case InputEdge(bank, raw) => EdgeCalm(s, bank, raw, p);
      case FakeInputs(bank) => FakeScanCalm(s, bank, p);
      case Second => TickPort(s, p);
      case Post(cmd) => AddMsgCalm(s, cmd, p);
      case Serve =>
        if !s.control.Ready? {
          PauseCalm(s, p);
        } else if s.queue != [] {
          var t := s.(queue := s.queue[..|s.queue| - 1]);
          if ServesStart(s, e) {
            StartPort(t, p);
          } else {
            CommandCalm(t, s.queue[|s.queue| - 1], p);
          }
        }
    }
  }
}

// The output engine in the form the program has it: tasks that update shared
// records, status bytes, the relay card and the message queue in place.  Each
// method is proved to do what its function in module Engine says.

module Controller {
  import opened Bits
  import opened Relays
  import opened Records
  import E = Engine
  import EngineSafety
  import EngineSteps

  class Controller {
    var recs: seq<Rec>             // the records in the output list, by index
    const card: Card
    var ip: seq<E.Ip>              // the used part of ip[]
    const inportstatus: array<Byte>
    const fakeStatus1: array<Byte>
    const fakeStatus2: array<Byte>
    var msgQueue: seq<E.Cmd>       // the used part of msg_queue[], newest last
    var engineRunning: bool
    var runningSeconds: nat
    var runningMinutes: nat
    var runningHours: nat
    var lightsOnCountdown: nat
    var lightsOnDelay: nat
    var testLblinkers: bool
    var testRblinkers: bool
    var control: E.Control         // the step basic_controls_task takes next

    ghost predicate Separate()
      reads this, card
    {
      && inportstatus.Length == NUM_PORTS && fakeStatus1.Length == NUM_PORTS && fakeStatus2.Length == NUM_PORTS
      && inportstatus != fakeStatus1 && inportstatus != fakeStatus2 && fakeStatus1 != fakeStatus2
      && card.outportstatus !in {inportstatus, fakeStatus1, fakeStatus2}
      && card.registers !in {inportstatus, fakeStatus1, fakeStatus2}
    }

    ghost predicate Valid()
      reads this, card, card.outportstatus, card.registers, inportstatus, fakeStatus1, fakeStatus2
    {
      Separate() && card.Valid() && E.Shape(View())
    }

    ghost function View(): E.State
      reads this, card, card.outportstatus, card.registers, inportstatus, fakeStatus1, fakeStatus2
      requires card.Valid()
    {
      E.State(recs, card.Relays(), card.driven, ip, inportstatus[..], fakeStatus1[..], fakeStatus2[..], msgQueue,
              engineRunning, runningSeconds, runningMinutes, runningHours, lightsOnCountdown, lightsOnDelay,
              testLblinkers, testRblinkers, control)
    }

    /** The state the tasks start from: the inputs as the card reads them (`raw`), simulated
        inputs and message queue empty. */
    constructor (records: seq<Rec>, index: seq<E.Ip>, c: Card, delay: nat, raw: seq<Byte>)
      requires c.Valid() && |records| == NUM_DATA_RECS && |raw| == NUM_PORTS
      requires forall k: nat :: k < NUM_DATA_RECS ==> records[k].port == k
      requires forall j :: 0 <= j < |index| ==> index[j].port < NUM_DATA_RECS
      ensures Valid() && card == c && recs == records && ip == index
      ensures msgQueue == [] && !engineRunning && control == E.Ready
      ensures fresh(inportstatus) && fresh(fakeStatus1) && fresh(fakeStatus2)
      ensures forall b :: 0 <= b < NUM_PORTS ==> inportstatus[b] == !raw[b] && fakeStatus1[b] == 0 == fakeStatus2[b]
    {
      recs, card, ip := records, c, index;
      inportstatus := new Byte[NUM_PORTS](b requires 0 <= b < NUM_PORTS => !raw[b]);
      fakeStatus1 := new Byte[NUM_PORTS](_ => 0);
      fakeStatus2 := new Byte[NUM_PORTS](_ => 0);
      msgQueue, engineRunning, runningSeconds, runningMinutes, runningHours := [], false, 0, 0, 0;
      lightsOnCountdown, lightsOnDelay, testLblinkers, testRblinkers := 0, delay, false, false;
      control := E.Ready;
    }

    // ---------- the shared helpers ----------

    method ChangeOutput(port: nat, onoff: int)
      requires Valid() && port < NUM_DATA_RECS
      modifies this, card, card.outportstatus, card.registers
      ensures Valid() && View() == E.SetRelay(old(View()), port, onoff != 0)
    {
      card.ChangeOutput(port, onoff);
    }

    /** ollist_insert_data; EngineInputs.InsertData does the same to the linked list. */
    method InsertData(r: Rec)
      requires Valid() && r.port < NUM_DATA_RECS
      modifies this
      ensures Valid() && View() == E.Insert(old(View()), r)
    {
      recs := recs[r.port := r];
    }

    method AddMsgQueue(cmd: E.Cmd)
      requires Valid()
      modifies this
      ensures Valid() && View() == E.AddMsg(old(View()), cmd)
    {
      if |msgQueue| < E.MSG_QUEUE_SIZE {
        msgQueue := msgQueue + [cmd];
      }
    }

    method ChangeInput(input: nat, on: bool)
      requires Valid() && input < NUM_DATA_RECS
      modifies fakeStatus2
      ensures Valid() && View() == E.ChangeInput(old(View()), input, on)
    {
      var bank, bit := Bank(input), Index(input);
      fakeStatus2[bank] := SetBit(fakeStatus2[bank], bit, on);
    }

    // ---------- set_output ----------

    method SetOutput(port: nat, onoff: Uchar)
      requires Valid() && port < NUM_DATA_RECS
      modifies this, card, card.outportstatus, card.registers
      ensures Valid() && View() == E.SetOutput(old(View()), port, onoff)
    {
      var r := recs[port];
      match r.kind {
        case 0 =>
          r := r.(onoff := if r.polarity == 1 then (if onoff == 1 then 0 else 1) else onoff);
          InsertData(r);
          ChangeOutput(port, r.onoff);
        case 1 =>
          if r.reset == 0 {
            r := r.(reset := 1, onoff := Toggle(r.onoff));
            InsertData(r);
            ChangeOutput(port, r.onoff);
          } else if r.reset == 1 {
            InsertData(r.(reset := 0));
          }
        case 4 =>
          if r.reset == 0 {
            InsertData(r.(reset := 1, onoff := 0));
            ChangeOutput(port, 0);
            AddMsgQueue(E.EstopSignal);
          } else if r.reset == 1 {
            InsertData(r.(reset := 3));
          }
        case _ =>
          if (r.kind == 2 || r.kind == 3) && r.reset == 0 {
            InsertData(r.(reset := 1, timeLeft := r.timeDelay, onoff := 1));
            ChangeOutput(port, 1);
          }
      }
    }

    // ---------- the input tasks ----------

    method SearchRealBanks(bank: nat, bit: nat) returns (index: nat)
      ensures index == E.SearchFrom(bank, bit, 0)
    {
      index := bit;
      for i := 0 to NUM_DATA_RECS
        invariant E.SearchFrom(bank, bit, 0) == E.SearchFrom(bank, index, i)
      {
        if Bank(i) == bank && Index(i) == index {
          index := i;
        }
      }
    }

    /** The loop over ip[]. */
    method DriveOutputs(index: nat, onoff: Uchar)
      requires Valid()
      modifies this, card, card.outportstatus, card.registers
      ensures Valid() && View() == E.Drive(old(View()), old(ip), index, onoff)
    {
      ghost var s := View();
      for i := 0 to |ip|
        invariant Valid() && ip == s.ip
        invariant E.Drive(s, s.ip, index, onoff) == E.Drive(View(), ip[i..], index, onoff)
      {
        assert ip[i..][0] == ip[i] && ip[i..][1..] == ip[i + 1..];
        if ip[i].input == index {
          SetOutput(ip[i].port, onoff);
        }
      }
      assert ip[|ip|..] == [];
    }

    /** What a changed byte means: the searches in front of the loop. */
    method Decode(bank: nat, mask: Byte, result: Byte) returns (index: nat, onoff: Uchar)
      ensures index == E.ChangedInput(bank, mask) && onoff == E.ChangedState(mask, result)
    {
      var bit := Mask2Int(mask);
      onoff := if mask & result == mask then 1 else 0;
      index := SearchRealBanks(bank, bit);
    }

    method React(bank: nat, mask: Byte, result: Byte)
      requires Valid()
      modifies this, card, card.outportstatus, card.registers
      ensures Valid() && View() == E.React(old(View()), bank, mask, result)
    {
      var index, onoff := Decode(bank, mask, result);
      DriveOutputs(index, onoff);
    }

    method HandleChange(bank: nat, mask: Byte, result: Byte)
      requires Valid() && bank < NUM_PORTS
      modifies this, card, card.outportstatus, card.registers, inportstatus
      ensures Valid() && View() == E.Changed(old(View()), bank, mask, result)
    {
      if !E.Ignored(mask) {
        React(bank, mask, result);
        inportstatus[bank] := result;
      }
    }

    /** monitor_input_task's pass over one bank, reading `raw` from the card. */
    method MonitorInput(bank: nat, raw: Byte)
      requires Valid() && bank < NUM_PORTS
      modifies this, card, card.outportstatus, card.registers, inportstatus
      ensures Valid() && View() == E.Edge(old(View()), bank, raw)
    {
      var result := !raw;
      var mask := result ^ inportstatus[bank];
      HandleChange(bank, mask, result);
    }

    method HandleSimulatedChange(bank: nat, mask: Byte, result: Byte)
      requires Valid() && bank < NUM_PORTS
      modifies this, card, card.outportstatus, card.registers, fakeStatus1, fakeStatus2
      ensures Valid() && View() == E.FakeChanged(old(View()), bank, mask, result)
    {
      if !E.Ignored(mask) {
        var byte := E.Rewritten(mask, result);
        React(bank, mask, result);
        fakeStatus2[bank] := byte;
        fakeStatus1[bank] := byte;
      }
    }

    /** monitor_fake_input_task's pass over one bank. */
    method MonitorFakeInput(bank: nat)
      requires Valid() && bank < NUM_PORTS
      modifies this, card, card.outportstatus, card.registers, fakeStatus1, fakeStatus2
      ensures Valid() && View() == E.FakeScan(old(View()), bank)
    {
      var result := fakeStatus2[bank];
      var mask := result ^ fakeStatus1[bank];
      HandleSimulatedChange(bank, mask, result);
    }

    // ---------- the timer task ----------

    method TickOutput(port: nat)
      requires Valid() && port < NUM_DATA_RECS
      modifies this, card, card.outportstatus, card.registers, fakeStatus1, fakeStatus2
      ensures Valid() && View() == E.TickOutput(old(View()), port)
    {
      var r := recs[port];
      if (r.kind == 2 || r.kind == 3) && r.reset == 1 {
        Blink(port);
        r := r.(timeLeft := E.Decrement(r.timeLeft));
        if r.timeLeft == 0 {
          Expire(r.(onoff := 0, reset := 0));
        } else {
          InsertData(r);
        }
      }
    }

    method Blink(port: nat)
      requires Valid() && port < NUM_DATA_RECS
      modifies this, card, card.outportstatus, card.registers
      ensures Valid() && View() == E.Blink(old(View()), port)
    {
      var r := recs[port];
      if r.kind == 3 {
        ChangeOutput(port, if (r.timeDelay - r.timeLeft) % 2 == 0 then 0 else 1);
      }
    }

    method Expire(r: Rec)
      requires Valid() && r.port < NUM_DATA_RECS
      modifies this, card, card.outportstatus, card.registers, fakeStatus1, fakeStatus2
      ensures Valid() && View() == E.Expire(old(View()), r)
    {
      ChangeOutput(r.port, 0);
      InsertData(r);
      ClearSimulated(r.port);
    }

    method ClearSimulated(port: nat)
      requires Valid() && port < NUM_DATA_RECS
      modifies fakeStatus1, fakeStatus2
      ensures Valid() && View() == E.ClearSimulated(old(View()), port)
    {
      var bank, bit := Bank(port), Index(port);
      fakeStatus1[bank] := SetBit(fakeStatus1[bank], bit, false);
      fakeStatus2[bank] := SetBit(fakeStatus2[bank], bit, false);
    }

    method QueueLightsOn()
      requires Valid()
      modifies this
      ensures Valid() && View() == E.QueueLightsOn(old(View()))
    {
      AddMsgQueue(E.OnLights);
      AddMsgQueue(E.OnRunningLights);
    }

    method QueueLightsOff()
      requires Valid()
      modifies this
      ensures Valid() && View() == E.QueueLightsOff(old(View()))
    {
      AddMsgQueue(E.OffLLights);
      AddMsgQueue(E.OffRLights);
      AddMsgQueue(E.OffLights);
      AddMsgQueue(E.OffRunningLights);
      AddMsgQueue(E.OffFan);
    }

    method AdvanceTime()
      requires Valid()
      modifies this
      ensures Valid() && View() == E.AdvanceTime(old(View()))
    {
      runningSeconds := runningSeconds + 1;
      if runningSeconds > 59 {
        runningSeconds := 0;
        runningMinutes := runningMinutes + 1;
        if runningMinutes > 59 {
          runningMinutes := 0;
          runningHours := runningHours + 1;
        }
      }
    }

    method TickRunning()
      requires Valid()
      modifies this
      ensures Valid() && View() == E.TickRunning(old(View()))
    {
      AdvanceTime();
      if runningMinutes == 0 && runningSeconds == 15 {
        QueueLightsOn();
      }
    }

    method ResetTime()
      requires Valid()
      modifies this
      ensures Valid() && View() == E.ResetTime(old(View()))
    {
      runningSeconds, runningMinutes, runningHours := 0, 0, 0;
    }

    method CountDownLights()
      requires Valid()
      modifies this
      ensures Valid() && View() == E.CountDownLights(old(View()))
    {
      if lightsOnCountdown > 0 {
        lightsOnCountdown := lightsOnCountdown - 1;
        if lightsOnCountdown == 0 {
          QueueLightsOff();
        }
      }
    }

    method TickCountdown()
      requires Valid()
      modifies this
      ensures Valid() && View() == E.TickCountdown(old(View()))
    {
      ResetTime();
      CountDownLights();
    }

    method TickClock()
      requires Valid()
      modifies this
      ensures Valid() && View() == E.TickClock(old(View()))
    {
      if engineRunning {
        TickRunning();
      } else {
        TickCountdown();
      }
    }

    method TickBlinkerTests()
      requires Valid()
      modifies this, fakeStatus2
      ensures Valid() && View() == E.TickBlinkerTests(old(View()))
    {
      if testLblinkers {
        testLblinkers := false;
        ChangeInput(E.LEFTBLINKER_INPUT, false);
      }
      if testRblinkers {
        testRblinkers := false;
        ChangeInput(E.RIGHTBLINKER_INPUT, false);
      }
    }

    /** timer_task's second. */
    method Tick()
      requires Valid()
      modifies this, card, card.outportstatus, card.registers, fakeStatus1, fakeStatus2
      ensures Valid() && View() == E.Tick(old(View()))
    {
      TickClock();
      TickBlinkerTests();
      ghost var s := View();
      for i := E.STARTER to E.TESTOUTPUT27
        invariant Valid() && E.TickOutputs(s, 0) == E.TickOutputs(View(), i)
      {
        TickOutput(i);
      }
    }

    // ---------- the control task ----------

    method SetOnoff(port: nat, onoff: Uchar)
      requires Valid() && port < NUM_DATA_RECS
      modifies this
      ensures Valid() && View() == E.SetOnoff(old(View()), port, onoff)
    {
      InsertData(recs[port].(onoff := onoff));
    }

    method SwitchLamps(input: nat, on: bool, a: nat, b: nat)
      requires Valid() && input < NUM_DATA_RECS && a < NUM_DATA_RECS && b < NUM_DATA_RECS
      modifies this, fakeStatus2
      ensures Valid()
      ensures var v := if on then 1 else 0;
              View() == E.SetOnoff(E.SetOnoff(E.ChangeInput(old(View()), input, on), a, v), b, v)
    {
      ChangeInput(input, on);
      SetOnoff(a, if on then 1 else 0);
      SetOnoff(b, if on then 1 else 0);
    }

    method SwitchLamp(input: nat, on: bool, a: nat)
      requires Valid() && input < NUM_DATA_RECS && a < NUM_DATA_RECS
      modifies this, fakeStatus2
      ensures Valid()
      ensures View() == E.SetOnoff(E.ChangeInput(old(View()), input, on), a, if on then 1 else 0)
    {
      ChangeInput(input, on);
      SetOnoff(a, if on then 1 else 0);
    }

    /** The record's latch is read after the record was inserted unchanged. */
    method SwitchAcc(on: bool)
      requires Valid()
      modifies this, card, card.outportstatus, card.registers
      ensures Valid() && View() == E.Command(old(View()), if on then E.OnAcc else E.OffAcc)
    {
      if recs[E.ACCON].reset == 0 {
        ChangeOutput(E.ACCON, if on then 1 else 0);
      }
    }

    method SwitchFuelPump(on: bool)
      requires Valid()
      modifies this, card, card.outportstatus, card.registers
      ensures Valid() && View() == E.Command(old(View()), if on then E.OnFuelPump else E.OffFuelPump)
    {
      if recs[E.FUELPUMP].reset == 0 {
        ChangeOutput(E.FUELPUMP, if on then 1 else 0);
        SetOnoff(E.FUELPUMP, if on then 1 else 0);
      }
    }

    method SetOutputs(ws: seq<(nat, Uchar)>)
      requires Valid() && forall j :: 0 <= j < |ws| ==> ws[j].0 < NUM_DATA_RECS
      modifies this, card, card.outportstatus, card.registers
      ensures Valid() && View() == E.SetOutputs(old(View()), ws)
    {
      ghost var s := View();
      for i := 0 to |ws|
        invariant Valid() && E.SetOutputs(s, ws) == E.SetOutputs(View(), ws[i..])
      {
        assert ws[i..][0] == ws[i] && ws[i..][1..] == ws[i + 1..];
        SetOutput(ws[i].0, ws[i].1);
      }
      assert ws[|ws|..] == [];
    }

    method SetWipers(a: Uchar, b: Uchar)
      requires Valid()
      modifies this, card, card.outportstatus, card.registers
      ensures Valid() && View() == E.SetOutput(E.SetOutput(old(View()), E.WWIPER1, a), E.WWIPER2, b)
    {
      SetOutput(E.WWIPER1, a);
      SetOutput(E.WWIPER2, b);
    }

    method Restart(port: nat)
      requires Valid() && port < NUM_DATA_RECS
      modifies this, card, card.outportstatus, card.registers
      ensures Valid() && View() == E.Restart(old(View()), port)
    {
      ChangeOutput(port, 1);
      InsertData(recs[port].(onoff := 1, reset := 0));
    }

    method StartMains()
      requires Valid()
      modifies this, card, card.outportstatus, card.registers
      ensures Valid() && View() == E.StartMains(old(View()))
    {
      Restart(E.ACCON);
      Restart(E.FUELPUMP);
    }

    /** The control task sleeps; the other tasks may run before its next step. */
    method Pause(next: E.Control)
      requires Valid()
      modifies this`control
      ensures Valid() && View() == old(View()).(control := next)
    {
      control := next;
    }

    /** START_SEQ up to its first pause. */
    method StartSeq()
      requires Valid()
      modifies this, card, card.outportstatus, card.registers
      ensures Valid() && View() == E.Command(old(View()), E.StartSeq)
    {
      StartMains();
      Pause(E.ReleasingStarter);
    }

    method ReleaseStarter()
      requires Valid()
      modifies this, fakeStatus2
      ensures Valid() && View() == E.ReleaseStarter(old(View()))
    {
      ChangeInput(E.STARTER_INPUT, false);
      Pause(E.PressingStarter);
    }

    method PressStarter()
      requires Valid()
      modifies this, fakeStatus2
      ensures Valid() && View() == E.PressStarter(old(View()))
    {
      ChangeInput(E.STARTER_INPUT, true);
      engineRunning := true;
      control := E.Ready;
    }

    method StopClock()
      requires Valid()
      modifies this
      ensures Valid() && View() == E.StopClock(old(View()))
    {
      ResetTime();
      engineRunning := false;
    }

    method StopMain(port: nat)
      requires Valid() && port < NUM_DATA_RECS
      modifies this, card, card.outportstatus, card.registers
      ensures Valid() && View() == E.StopMain(old(View()), port)
    {
      ChangeOutput(port, 0);
      SetOnoff(port, 0);
    }

    /** SHUTDOWN up to its pause. */
    method Shutdown()
      requires Valid()
      modifies this, card, card.outportstatus, card.registers
      ensures Valid() && View() == E.Command(old(View()), E.Shutdown)
    {
      StopClock();
      StopMain(E.ACCON);
      Pause(E.StoppingPump);
    }

    method StopPump()
      requires Valid()
      modifies this, card, card.outportstatus, card.registers
      ensures Valid() && View() == E.StopPump(old(View()))
    {
      StopMain(E.FUELPUMP);
      lightsOnCountdown := lightsOnDelay;
      control := E.Ready;
    }

    method RunLampCommand(cmd: E.Cmd) returns (done: bool)
      requires Valid()
      modifies this, card, card.outportstatus, card.registers, fakeStatus2
      ensures Valid() && View() == if done then E.Command(old(View()), cmd) else old(View())
      ensures done || !(cmd.OnFan? || cmd.OffFan? || cmd.OnLights? || cmd.OffLights? || cmd.OnRunningLights?
                        || cmd.OffRunningLights? || cmd.OnBrights? || cmd.OffBrights?)
    {
      done := true;
      match cmd {
        case OnFan => SwitchLamp(E.COOLINGFAN_INPUT, true, E.COOLINGFAN);
        case OffFan => SwitchLamp(E.COOLINGFAN_INPUT, false, E.COOLINGFAN);
        case OnLights => SwitchLamps(E.HEADLAMP_INPUT, true, E.LHEADLAMP, E.RHEADLAMP);
        case OffLights => SwitchLamps(E.HEADLAMP_INPUT, false, E.LHEADLAMP, E.RHEADLAMP);
        case OnRunningLights => SwitchLamp(E.RUNNING_LIGHTS_INPUT, true, E.RUNNINGLIGHTS);
        case OffRunningLights => SwitchLamp(E.RUNNING_LIGHTS_INPUT, false, E.RUNNINGLIGHTS);
        case OnBrights => SwitchLamps(E.BRIGHTS_INPUT, true, E.LBRIGHTS, E.RBRIGHTS);
        case OffBrights => SwitchLamps(E.BRIGHTS_INPUT, false, E.LBRIGHTS, E.RBRIGHTS);
        case _ => done := false;
      }
    }

    method RunOutputCommand(cmd: E.Cmd) returns (done: bool)
      requires Valid()
      modifies this, card, card.outportstatus, card.registers
      ensures Valid() && View() == if done then E.Command(old(View()), cmd) else old(View())
      ensures done || !(cmd.OnLLights? || cmd.OffLLights? || cmd.OnRLights? || cmd.OffRLights? || cmd.OnRBrights?
                        || cmd.OffRBrights? || cmd.OnLBrights? || cmd.OffLBrights?
                        || cmd.Wiper1? || cmd.Wiper2? || cmd.WiperOff?)
    {
      done := true;
      match cmd {
        case OnLLights => SetOutput(E.LHEADLAMP, 1);
        case OffLLights => SetOutput(E.LHEADLAMP, 0);
        case OnRLights => SetOutput(E.RHEADLAMP, 1);
        case OffRLights => SetOutput(E.RHEADLAMP, 0);
        case OnRBrights => SetOutput(E.RBRIGHTS, 1);
        case OffRBrights => SetOutput(E.RBRIGHTS, 0);
        case OnLBrights => SetOutput(E.LBRIGHTS, 1);
        case OffLBrights => SetOutput(E.LBRIGHTS, 0);
        case Wiper1 => SetWipers(1, 0);
        case Wiper2 => SetWipers(1, 1);
        case WiperOff => SetWipers(0, 0);
        case _ => done := false;
      }
    }

    method TestLeftBlinker()
      requires Valid()
      modifies this, fakeStatus2
      ensures Valid() && View() == E.Command(old(View()), E.TestLeftBlinker)
    {
      ChangeInput(E.LEFTBLINKER_INPUT, true);
      testLblinkers := true;
    }

    method TestRightBlinker()
      requires Valid()
      modifies this, fakeStatus2
      ensures Valid() && View() == E.Command(old(View()), E.TestRightBlinker)
    {
      ChangeInput(E.RIGHTBLINKER_INPUT, true);
      testRblinkers := true;
    }

    method RunInputCommand(cmd: E.Cmd) returns (done: bool)
      requires Valid()
      modifies this, fakeStatus2
      ensures Valid() && View() == if done then E.Command(old(View()), cmd) else old(View())
      ensures done || !(cmd.EnableStart? || cmd.StarterOff? || cmd.TestLeftBlinker? || cmd.TestRightBlinker?
                        || cmd.OnBrakes? || cmd.OffBrakes?)
    {
      done := true;
      match cmd {
        case EnableStart => ChangeInput(E.STARTER_INPUT, true);
        case StarterOff => ChangeInput(E.STARTER_INPUT, false);
        case TestLeftBlinker => TestLeftBlinker();
        case TestRightBlinker => TestRightBlinker();
        case OnBrakes => ChangeInput(E.BRAKE_INPUT, true);
        case OffBrakes => ChangeInput(E.BRAKE_INPUT, false);
        case _ => done := false;
      }
    }

    /** The switch of basic_controls_task, case group by case group. */
    method RunCommand(cmd: E.Cmd)
      requires Valid()
      modifies this, card, card.outportstatus, card.registers, fakeStatus2
      ensures Valid() && View() == E.Command(old(View()), cmd)
    {
      var done := RunLampCommand(cmd);
      if !done {
        done := RunOutputCommand(cmd);
      }
      if !done {
        done := RunInputCommand(cmd);
      }
      if !done {
        match cmd {
          case OnAcc => SwitchAcc(true);
          case OffAcc => SwitchAcc(false);
          case OnFuelPump => SwitchFuelPump(true);
          case OffFuelPump => SwitchFuelPump(false);
          case SpecialCmd =>
            SetOutputs(E.SPECIAL);
            SetOutputs(E.SPECIAL);
          case StartSeq => StartSeq();
          case Shutdown => Shutdown();
          case _ =>
        }
      }
    }

    /** basic_controls_task serves one message, if there is one. */
    method ServeMessage()
      requires Valid()
      modifies this, card, card.outportstatus, card.registers, fakeStatus2
      ensures Valid() && View() == E.ServeMessage(old(View()))
    {
      if msgQueue != [] {
        var cmd := msgQueue[|msgQueue| - 1];
        msgQueue := msgQueue[..|msgQueue| - 1];
        RunCommand(cmd);
      }
    }

    /** The next step of basic_controls_task. */
    method Dispatch()
      requires Valid()
      modifies this, card, card.outportstatus, card.registers, fakeStatus2
      ensures Valid() && View() == E.Dispatch(old(View()))
    {
      match control {
        case Ready => ServeMessage();
        case ReleasingStarter => ReleaseStarter();
        case PressingStarter => PressStarter();
        case StoppingPump => StopPump();
      }
    }

    /** One event of a run. */
    method Handle(e: E.Event)
      requires Valid() && E.Legal(e)
      modifies this, card, card.outportstatus, card.registers, inportstatus, fakeStatus1, fakeStatus2
      ensures Valid() && View() == E.Next(old(View()), e)
    {
      match e {
        case InputEdge(bank, raw) => MonitorInput(bank, raw);
        case FakeInputs(bank) => MonitorFakeInput(bank);
        case Second => Tick();
        case Post(cmd) => AddMsgQueue(cmd);
        case Serve => Dispatch();
      }
    }

    /** A run of events, and what the emergency stop means for the card: after any run from the
        start, the register bit of a relay whose stop has fired is off. */
    method Run(es: seq<E.Event>)
      requires Valid() && E.AllLegal(es) && EngineSafety.Init(View())
      modifies this, card, card.outportstatus, card.registers, inportstatus, fakeStatus1, fakeStatus2
      ensures Valid() && View() == E.Exec(old(View()), es)
      ensures forall p: nat :: p < NUM_DATA_RECS && EngineSteps.Latched(recs[p])
                ==> !Unpack(card.registers[..])[p]
    {
      ghost var s := View();
      for i := 0 to |es|
        invariant Valid() && E.Exec(s, es) == E.Exec(View(), es[i..])
      {
        assert es[i..][0] == es[i] && es[i..][1..] == es[i + 1..];
        Handle(es[i]);
      }
      assert es[|es|..] == [];
      forall p: nat | p < NUM_DATA_RECS && EngineSteps.Latched(recs[p])
        ensures !Unpack(card.registers[..])[p]
      {
        EngineSafety.ExecPort(s, es, p);
        assert View().out[p] == Unpack(card.outportstatus[..])[p];
      }
    }
  }
}
