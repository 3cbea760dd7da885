// What set_output and the second do to a relay, type by type, in terms of the switch and the record's
// configuration.

module EngineOutputs {
  import opened Bits
  import opened Relays
  import opened Records
  import opened Engine
  import opened EngineSteps
  import opened EngineInputs

  /** The state a follow output (type 0) has for a switch: polarity 1 inverts it. */
  predicate Shown(r: Rec, on: bool) {
    on != (r.polarity == 1)
  }

  /** Type 0: the relay follows the switch, and the record says so. */
  lemma Follows(s: State, p: nat, onoff: Uchar)
    requires Shape(s) && p < NUM_DATA_RECS && s.recs[p].kind == 0 && onoff <= 1
    ensures var t := SetOutput(s, p, onoff);
            && (t.out[p] <==> Shown(s.recs[p], onoff == 1)) && Bank(p) in t.driven
            && t.recs[p] == s.recs[p].(onoff := if t.out[p] then 1 else 0)
  {
  }

  /** Type 1: a press flips the relay, the release rearms it, whatever states they are reported with. */
  lemma PressAndRelease(s: State, p: nat, press: Uchar, release: Uchar)
    requires Shape(s) && p < NUM_DATA_RECS && s.recs[p].kind == 1 && s.recs[p].reset == 0
    requires s.out[p] <==> s.recs[p].onoff == 1
    ensures var t := SetOutput(s, p, press); var u := SetOutput(t, p, release);
            && t.out[p] == !s.out[p] && t.recs[p].reset == 1
            && u.out[p] == t.out[p] && u.recs[p].reset == 0
            && (u.out[p] <==> u.recs[p].onoff == 1)
  {
  }

  /** Types 2 and 3: an idle output is switched on for its delay; a running one is left alone. */
  lemma Triggers(s: State, p: nat, onoff: Uchar)
    requires Shape(s) && p < NUM_DATA_RECS && s.recs[p].kind in {2, 3}
    ensures var t := SetOutput(s, p, onoff);
            if s.recs[p].reset == 0 then
              && t.out[p] && t.recs[p].onoff == 1 && t.recs[p].reset == 1
              && t.recs[p].timeLeft == s.recs[p].timeDelay
            else t.recs[p] == s.recs[p] && t.out[p] == s.out[p]
  {
  }

  /** Type 4: the first call switches off, latches and reports the stop; later ones move nothing. */
  lemma StopFires(s: State, p: nat, onoff: Uchar)
    requires Shape(s) && p < NUM_DATA_RECS && s.recs[p].kind == 4
    ensures var t := SetOutput(s, p, onoff);
            if s.recs[p].reset == 0 then
              && !t.out[p] && t.recs[p].onoff == 0 && t.recs[p].reset == 1
              && t.queue == (if |s.queue| < MSG_QUEUE_SIZE then s.queue + [EstopSignal] else s.queue)
            else
              && t.out[p] == s.out[p] && t.queue == s.queue
              && t.recs[p] == s.recs[p].(reset := if s.recs[p].reset == 1 then 3 else s.recs[p].reset)
  {
  }

  /** Other types do nothing, and no call moves another output. */
  lemma NothingElse(s: State, p: nat, onoff: Uchar, q: nat)
    requires Shape(s) && p < NUM_DATA_RECS && q < NUM_DATA_RECS && (q != p || s.recs[p].kind > 4)
    ensures var t := SetOutput(s, p, onoff); t.recs[q] == s.recs[q] && t.out[q] == s.out[q]
  {
  }

  lemma FollowsDrive(s: State, t: State, p: nat, onoff: Uchar)
    requires Shape(s) && Shape(t) && p < NUM_DATA_RECS && s.recs[p].kind == 0 && onoff <= 1
    requires DrivenOrKept(s, t, p, true, onoff)
    ensures t.out[p] <==> Shown(s.recs[p], onoff == 1)
  {
  }

  /** Main result: a follow output shows the switch it is assigned to, after any pass that finds this
      switch alone changed in its bank. */
  lemma FollowsSwitch(s: State, bank: nat, raw: Byte, bit: nat, p: nat)
    requires Indexed(s) && bank < NUM_PORTS && bit < 8 && p < NUM_DATA_RECS
    requires !raw ^ s.inport[bank] == Mask(bit)
    requires s.recs[p].kind == 0 && s.recs[p].inputPort == InputBehind(bank, bit)
    ensures Edge(s, bank, raw).out[p] <==> Shown(s.recs[p], BitOn(!raw, bit))
  {
    SingleBitEdge(s, bank, raw, bit, p);
    FollowsDrive(s, Edge(s, bank, raw), p, if BitOn(!raw, bit) then 1 else 0);
  }

  /** A second leaves every output alone but the running timed ones below port 30. */
  lemma SecondLeavesOthers(s: State, p: nat)
    requires Shape(s) && p < NUM_DATA_RECS
    requires !(s.recs[p].kind in {2, 3} && s.recs[p].reset == 1 && p < TESTOUTPUT27)
    ensures Next(s, Second).recs[p] == s.recs[p] && Next(s, Second).out[p] == s.out[p]
  {
    var u := TickBlinkerTests(TickClock(s));
    TickPrelude(s);
    if p < TESTOUTPUT27 {
      var t := TickOutputsReach(u, STARTER, p);
      TickOutputEffect(t, p, p);
      TickOutputsPast(TickOutput(t, p), p + 1, p);
    } else {
      TickOutputsBeyond(u, STARTER, p);
    }
  }
}
