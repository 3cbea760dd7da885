// What every run of the output engine keeps: the emergency-stop latch and the
// timed outputs.

module EngineSafety {
  import opened Relays
  import opened Records
  import opened Engine
  import opened EngineSteps

  /** Records as loaded, before any event: nothing has been triggered, all relays off. */
  predicate Init(s: State) {
    && Shape(s)
    && forall p: nat :: p < NUM_DATA_RECS ==>
         s.recs[p].reset == 0 && !s.out[p] && (IsTimed(s.recs[p], p) ==> s.recs[p].onoff == 0)
  }

  lemma {:induction false} ExecPort(s: State, es: seq<Event>, p: nat)
    requires Shape(s) && AllLegal(es) && p < NUM_DATA_RECS && PortInv(s, p)
    ensures PortInv(Exec(s, es), p) && SameConfig(s.recs[p], Exec(s, es).recs[p]) && Exec(s, es).ip == s.ip
    decreases es
  {
    if es != [] {
      NextPort(s, es[0], p);
      ExecPort(Next(s, es[0]), es[1..], p);
    }
  }

  /** Emergency stop, in every reachable state: a record of type 4 that has fired has
      its relay off, and an event opens the latch exactly when it serves START_SEQ
      and the relay is one of the two main ones. */
  lemma EmergencyStopLatch(s: State, es: seq<Event>, p: nat, e: Event)
    requires Init(s) && AllLegal(es) && p < NUM_DATA_RECS && Legal(e)
    requires Latched(Exec(s, es).recs[p])
    ensures !Exec(s, es).out[p] && Bank(p) in Exec(s, es).driven
    ensures Latched(Next(Exec(s, es), e).recs[p]) <==> !(ServesStart(Exec(s, es), e) && IsMainRelay(p))
    ensures Next(Exec(s, es), e).out[p] <==> ServesStart(Exec(s, es), e) && IsMainRelay(p)
  {
    ExecPort(s, es, p);
    NextPort(Exec(s, es), e, p);
  }

  /** How often START_SEQ is served in a run. */
  function Starts(s: State, es: seq<Event>): nat
    requires Shape(s) && AllLegal(es)
    decreases es
  {
    if es == [] then 0
    else (if ServesStart(s, es[0]) then 1 else 0) + Starts(Next(s, es[0]), es[1..])
  }

  /** However long the run, without START_SEQ the relay stays off. */
  lemma {:induction false} StaysStopped(s: State, es: seq<Event>, p: nat)
    requires Shape(s) && AllLegal(es) && p < NUM_DATA_RECS && PortInv(s, p)
    requires Latched(s.recs[p]) && (Starts(s, es) == 0 || !IsMainRelay(p))
    ensures Latched(Exec(s, es).recs[p]) && !Exec(s, es).out[p]
    decreases es
  {
    if es != [] {
      NextPort(s, es[0], p);
      StaysStopped(Next(s, es[0]), es[1..], p);
    }
  }

  /** Timed outputs, in every reachable state. */
  lemma TimedOutputs(s: State, es: seq<Event>, p: nat)
    requires Init(s) && AllLegal(es) && p < NUM_DATA_RECS && IsTimed(s.recs[p], p)
    ensures
      var r, on := Exec(s, es).recs[p], Exec(s, es).out[p];
      && r.reset <= 1
      && (r.reset == 1 ==> Remaining(r) <= Period(r))
      && (r.reset == 1 && r.timeDelay > 0 ==> 1 <= r.timeLeft <= r.timeDelay)
      && (r.kind == 2 ==> (on <==> r.reset == 1))
      && (r.kind == 3 ==> (on <==> r.reset == 1 && Phase(r) == 0))
      && (!IsWrittenDirectly(p) ==> (r.onoff == 1 <==> r.reset == 1))
  {
    ExecPort(s, es, p);
  }

  /** A timed output whose counter starts at zero has time left exactly while it runs. */
  lemma {:induction false} TimeLeftMeansRunning(s: State, es: seq<Event>, p: nat)
    requires Shape(s) && AllLegal(es) && p < NUM_DATA_RECS && PortInv(s, p) && IsTimed(s.recs[p], p)
    requires s.recs[p].timeDelay > 0 && (s.recs[p].reset == 0 ==> s.recs[p].timeLeft == 0)
    ensures var r := Exec(s, es).recs[p];
            && (r.reset == 1 <==> 1 <= r.timeLeft <= r.timeDelay) && (r.reset == 0 <==> r.timeLeft == 0)
            && (r.kind == 2 ==> (Exec(s, es).out[p] <==> 1 <= r.timeLeft <= r.timeDelay))
    decreases es
  {
    if es != [] {
      NextPort(s, es[0], p);
      TimeLeftMeansRunning(Next(s, es[0]), es[1..], p);
    }
  }

  function Seconds(es: seq<Event>): nat {
    if es == [] then 0 else (if es[0].Second? then 1 else 0) + Seconds(es[1..])
  }

  /** A running timer loses one unit a second, whatever else happens. */
  lemma {:induction false} CountsDown(s: State, es: seq<Event>, p: nat)
    requires Shape(s) && AllLegal(es) && p < NUM_DATA_RECS && PortInv(s, p)
    requires Counting(s.recs[p], p) && Seconds(es) < Remaining(s.recs[p])
    ensures PortInv(Exec(s, es), p) && SameConfig(s.recs[p], Exec(s, es).recs[p])
    ensures Exec(s, es).recs[p].reset == 1
    ensures Remaining(Exec(s, es).recs[p]) == Remaining(s.recs[p]) - Seconds(es)
    decreases es
  {
    if es != [] {
      NextPort(s, es[0], p);
      CountsDown(Next(s, es[0]), es[1..], p);
    }
  }

  /** Bounded on-time: once an idle timed output is triggered, through any events with n seconds
      among them it is on (type 2) or on at even n (type 3) while n is below its period, and the
      last second of the period turns it off.  The period is time_delay, or 2^32 for a delay of 0. */
  lemma TriggerRunsForItsDelay(s: State, onoff: Uchar, es: seq<Event>, p: nat)
    requires Shape(s) && p < NUM_DATA_RECS && PortInv(s, p) && AllLegal(es)
    requires IsTimed(s.recs[p], p) && s.recs[p].reset == 0
    requires Seconds(es) < Period(s.recs[p])
    ensures
      var t := Exec(SetOutput(s, p, onoff), es);
      && t.recs[p].reset == 1
      && t.out[p] == (s.recs[p].kind == 2 || Seconds(es) % 2 == 0)
      && (Seconds(es) == Period(s.recs[p]) - 1 ==> !Next(t, Second).out[p] && Next(t, Second).recs[p].reset == 0)
  {
    var t := Exec(SetOutput(s, p, onoff), es);
    Triggered(s, onoff, p);
    CountsDown(SetOutput(s, p, onoff), es, p);
    PhaseOf(t.recs[p], Seconds(es));
    NextPort(t, Second, p);
  }

  lemma Triggered(s: State, onoff: Uchar, p: nat)
    requires Shape(s) && p < NUM_DATA_RECS && PortInv(s, p)
    requires IsTimed(s.recs[p], p) && s.recs[p].reset == 0
    ensures
      var t := SetOutput(s, p, onoff);
      && PortInv(t, p) && SameConfig(s.recs[p], t.recs[p])
      && Counting(t.recs[p], p) && Remaining(t.recs[p]) == Period(s.recs[p])
  {
    SetOutputCalm(s, p, onoff, p);
    SetOutputPort(s, p, onoff, p);
  }

  lemma PhaseOf(r: Rec, n: nat)
    requires Remaining(r) == Period(r) - n
    ensures Phase(r) == n % 2
  {
  }

  /** The tick stops before port 30: a timed output from there on, once triggered,
      stays on through every run. */
  lemma {:induction false} StrandedStaysOn(s: State, es: seq<Event>, p: nat)
    requires Shape(s) && AllLegal(es) && p < NUM_DATA_RECS && PortInv(s, p)
    requires IsStranded(s.recs[p], p) && s.recs[p].reset == 1
    ensures Exec(s, es).recs[p].reset == 1 && Exec(s, es).out[p]
    decreases es
  {
    if es != [] {
      NextPort(s, es[0], p);
      StrandedStaysOn(Next(s, es[0]), es[1..], p);
    }
  }

  /** A delay of zero does not mean "off at once": the output runs for 2^32 seconds. */
  lemma ZeroDelayWraps(s: State, onoff: Uchar, es: seq<Event>, p: nat)
    requires Shape(s) && p < NUM_DATA_RECS && PortInv(s, p) && AllLegal(es)
    requires IsTimed(s.recs[p], p) && s.recs[p].reset == 0 && s.recs[p].timeDelay == 0
    requires Seconds(es) < 0x1_0000_0000
    ensures
      var t := Exec(SetOutput(s, p, onoff), es);
      && t.recs[p].reset == 1 && t.out[p] == (s.recs[p].kind == 2 || Seconds(es) % 2 == 0)
      && (Seconds(es) == 0xFFFF_FFFF ==> !Next(t, Second).out[p])
  {
    TriggerRunsForItsDelay(s, onoff, es, p);
  }

  lemma {:induction false} ExecAppend(s: State, es: seq<Event>, e: Event)
    requires Shape(s) && AllLegal(es) && Legal(e)
    ensures Exec(s, es + [e]) == Next(Exec(s, es), e)
    decreases es
  {
    if es == [] {
      assert es + [e] == [e] && [e][1..] == [];
    } else {
      assert (es + [e])[1..] == es[1..] + [e];
      ExecAppend(Next(s, es[0]), es[1..], e);
    }
  }

  lemma {:induction false} SecondsAppend(es: seq<Event>, e: Event)
    ensures Seconds(es + [e]) == Seconds(es) + (if e.Second? then 1 else 0)
  {
    if es == [] {
      assert es + [e] == [e] && [e][1..] == [];
    } else {
      assert (es + [e])[1..] == es[1..] + [e];
      SecondsAppend(es[1..], e);
    }
  }

  lemma BeforeLast(es: seq<Event>)
    requires AllLegal(es) && es != [] && es[|es| - 1].Second?
    ensures var before := es[..|es| - 1];
            es == before + [Second] && AllLegal(before) && Seconds(before) == Seconds(es) - 1
  {
    assert es == es[..|es| - 1] + [Second];
    SecondsAppend(es[..|es| - 1], Second);
  }

  lemma StrandedTriggered(s: State, onoff: Uchar, p: nat)
    requires Shape(s) && p < NUM_DATA_RECS && PortInv(s, p) && IsStranded(s.recs[p], p) && s.recs[p].reset == 0
    ensures var t := SetOutput(s, p, onoff);
            PortInv(t, p) && IsStranded(t.recs[p], p) && t.recs[p].reset == 1
  {
    SetOutputCalm(s, p, onoff, p);
    SetOutputPort(s, p, onoff, p);
  }

  /** The exact condition: a triggered timed output is off with second number time_delay exactly
      when the tick visits it and the delay is not zero. */
  lemma OffAtItsDelay(s: State, onoff: Uchar, es: seq<Event>, p: nat)
    requires Shape(s) && p < NUM_DATA_RECS && PortInv(s, p) && AllLegal(es)
    requires (s.recs[p].kind == 2 || s.recs[p].kind == 3) && !IsMainRelay(p) && s.recs[p].reset == 0
    requires Seconds(es) == s.recs[p].timeDelay
    requires s.recs[p].timeDelay > 0 ==> es != [] && es[|es| - 1].Second?
    ensures !Exec(SetOutput(s, p, onoff), es).out[p] <==> p < TESTOUTPUT27 && s.recs[p].timeDelay > 0
  {
    if p >= TESTOUTPUT27 {
      StrandedTriggered(s, onoff, p);
      StrandedStaysOn(SetOutput(s, p, onoff), es, p);
    } else if s.recs[p].timeDelay == 0 {
      TriggerRunsForItsDelay(s, onoff, es, p);
    } else {
      OffInTime(s, onoff, es, p);
    }
  }

  lemma OffInTime(s: State, onoff: Uchar, es: seq<Event>, p: nat)
    requires Shape(s) && p < NUM_DATA_RECS && PortInv(s, p) && AllLegal(es)
    requires IsTimed(s.recs[p], p) && s.recs[p].reset == 0 && s.recs[p].timeDelay > 0
    requires Seconds(es) == s.recs[p].timeDelay && es != [] && es[|es| - 1].Second?
    ensures !Exec(SetOutput(s, p, onoff), es).out[p]
  {
    BeforeLast(es);
    OffWithNext(s, SetOutput(s, p, onoff), onoff, es[..|es| - 1], p);
  }

  lemma OffWithNext(s: State, t: State, onoff: Uchar, es: seq<Event>, p: nat)
    requires Shape(s) && p < NUM_DATA_RECS && PortInv(s, p) && AllLegal(es)
    requires IsTimed(s.recs[p], p) && s.recs[p].reset == 0 && s.recs[p].timeDelay > 0
    requires Seconds(es) == s.recs[p].timeDelay - 1 && t == SetOutput(s, p, onoff)
    ensures AllLegal(es + [Second]) && !Exec(t, es + [Second]).out[p]
  {
    TriggerRunsForItsDelay(s, onoff, es, p);
    ExecAppend(t, es, Second);
  }
}
