// The cooling-fan thermostat of the STM32 (STM32/Src/freertos.c, Callback01).

module Fan {
  datatype Cmd = OnFan | OffFan

  /** What one second of Callback01 looks at. */
  datatype Reading = Reading(raw: int, engineOn: int, overridden: int)

  /** `raw_data =- 511` assigns -511, whatever the reading between 403 and 511 was. */
  function Temp(raw: int): int {
    if 403 <= raw <= 511 then -511 else raw
  }

  /** What the comment above that line asks for: the sensor's upper readings are negative numbers. */
  function IntendedTemp(raw: int): int {
    if 403 <= raw <= 511 then raw - 511 else raw
  }

  /** One second: the fan's state afterwards and the commands sent. */
  function Step(fan: bool, r: Reading, onTemp: int, offTemp: int): (bool, seq<Cmd>) {
    StepAt(fan, Temp(r.raw), r, onTemp, offTemp)
  }

  function StepAt(fan: bool, temp: int, r: Reading, onTemp: int, offTemp: int): (bool, seq<Cmd>) {
    var starts := r.engineOn > 0 && !fan && temp >= onTemp;
    var stops := r.overridden == 0 && (fan || starts) && temp <= offTemp;
    var sent := if starts && stops then [OnFan, OffFan] else if starts then [OnFan] else if stops then [OffFan] else [];
    ((fan || starts) && !stops, sent)
  }

  /** A run of seconds without ON_FAN or OFF_FAN from outside. */
  function Run(fan: bool, rs: seq<Reading>, onTemp: int, offTemp: int): (bool, seq<Cmd>)
    decreases |rs|
  {
    if rs == [] then (fan, [])
    else
      var before := Run(fan, rs[..|rs| - 1], onTemp, offTemp);
      var last := Step(before.0, rs[|rs| - 1], onTemp, offTemp);
      (last.0, before.1 + last.1)
  }

  class Thermostat {
    var fanOn: bool
    var engineOn: int
    var coolingFanOverride: int
    var fanOnTemp: nat
    var fanOffTemp: nat

    /** The fan part of Callback01, given what the DS1620 returned. */
    method Tick(raw: int) returns (sent: seq<Cmd>)
      modifies this`fanOn
      ensures var step := Step(old(fanOn), Reading(raw, engineOn, coolingFanOverride), fanOnTemp, fanOffTemp);
              fanOn == step.0 && sent == step.1
    {
      var rawData := raw;
      sent := [];
      if rawData <= 511 && rawData >= 403 {
        rawData := -511;
      }
      if engineOn > 0 && !fanOn && rawData >= fanOnTemp {
        fanOn := true;
        sent := sent + [OnFan];
      }
      if coolingFanOverride == 0 && fanOn && rawData <= fanOffTemp {
        fanOn := false;
        sent := sent + [OffFan];
      }
    }

    /** A second for each reading; the outside writes nothing in between. */
    method TickAll(raws: seq<int>) returns (sent: seq<Cmd>)
      modifies this`fanOn
      ensures (fanOn, sent)
              == Run(old(fanOn), Readings(raws, engineOn, coolingFanOverride), fanOnTemp, fanOffTemp)
    {
      sent := [];
      for i := 0 to |raws|
        invariant (fanOn, sent)
                  == Run(old(fanOn), Readings(raws[..i], engineOn, coolingFanOverride), fanOnTemp, fanOffTemp)
      {
        assert raws[..i + 1][..i] == raws[..i];
        var more := Tick(raws[i]);
        sent := sent + more;
      }
      assert raws[..|raws|] == raws;
    }
  }

  function Readings(raws: seq<int>, engineOn: int, overridden: int): (rs: seq<Reading>)
    ensures |rs| == |raws|
  {
    if raws == [] then []
    else Readings(raws[..|raws| - 1], engineOn, overridden) + [Reading(raws[|raws| - 1], engineOn, overridden)]
  }

  // ---------- one second ----------

  /** The assignment gives the temperature the comment describes exactly outside 403 to 511.  The
      thresholds are not negative, so the fan notices in one case only: a stopped fan, the engine
      on, the reading 511 (zero) and the threshold zero. */
  lemma AssignsInsteadOfSubtracting(fan: bool, r: Reading, onTemp: nat, offTemp: nat)
    ensures Temp(r.raw) == IntendedTemp(r.raw) <==> !(403 <= r.raw <= 511)
    ensures Step(fan, r, onTemp, offTemp) != StepAt(fan, IntendedTemp(r.raw), r, onTemp, offTemp)
            <==> !fan && r.engineOn > 0 && r.raw == 511 && onTemp == 0
  {
    if !fan && r.engineOn > 0 && r.raw == 511 && onTemp == 0 {
      assert Step(fan, r, onTemp, offTemp).1 == [];
      assert StepAt(fan, IntendedTemp(r.raw), r, onTemp, offTemp).1[0] == OnFan;
    }
  }

  /** Two commands in the same second: exactly when a stopped fan meets a temperature between
      the thresholds, with the engine on and no override. */
  lemma BothInOneSecond(fan: bool, r: Reading, onTemp: int, offTemp: int)
    ensures |Step(fan, r, onTemp, offTemp).1| == 2
            <==> !fan && r.engineOn > 0 && r.overridden == 0 && onTemp <= Temp(r.raw) <= offTemp
    ensures offTemp < onTemp ==> |Step(fan, r, onTemp, offTemp).1| <= 1
  {
  }

  /** Hysteresis: hot means on, cold means off, and in between nothing changes. */
  lemma Hysteresis(fan: bool, r: Reading, onTemp: int, offTemp: int)
    requires offTemp < onTemp
    ensures var after := Step(fan, r, onTemp, offTemp).0;
            after <==> if Temp(r.raw) >= onTemp then fan || r.engineOn > 0
                       else if Temp(r.raw) <= offTemp then fan && r.overridden != 0
                       else fan
  {
  }

  // ---------- whole runs ----------

  predicate Alternate(cmds: seq<Cmd>, fan: bool) {
    forall k :: 0 <= k < |cmds| ==> (cmds[k] == OnFan <==> (fan <==> k % 2 == 1))
  }

  /** The commands of any run alternate, from the one that changes the fan first, and the fan is
      where the last one put it. */
  lemma {:induction false} CommandsAlternate(fan: bool, rs: seq<Reading>, onTemp: int, offTemp: int)
    ensures var end := Run(fan, rs, onTemp, offTemp);
            Alternate(end.1, fan) && (end.0 <==> (fan <==> |end.1| % 2 == 0))
    decreases |rs|
  {
    if rs != [] {
      CommandsAlternate(fan, rs[..|rs| - 1], onTemp, offTemp);
    }
  }

  function Distance(a: int, b: int): nat {
    if a < b then b - a else a - b
  }

  /** The summed change of the temperature over the readings. */
  function Travel(rs: seq<Reading>): nat {
    if |rs| < 2 then 0
    else Travel(rs[..|rs| - 1]) + Distance(Temp(rs[|rs| - 2].raw), Temp(rs[|rs| - 1].raw))
  }

  /** How far the temperature has moved back from the threshold that caused the last command. */
  function Slack(fan: bool, temp: int, onTemp: int, offTemp: int): nat {
    if fan then (if temp < onTemp then onTemp - temp else 0)
    else (if temp > offTemp then temp - offTemp else 0)
  }

  /** k commands cost at least (k - 1) * (onTemp - offTemp) degrees of change. */
  lemma NoChatter(fan: bool, rs: seq<Reading>, onTemp: int, offTemp: int)
    requires offTemp < onTemp
    ensures var k := |Run(fan, rs, onTemp, offTemp).1|;
            k <= |rs| && (k >= 1 ==> Travel(rs) >= (k - 1) * (onTemp - offTemp))
  {
    ChatterCost(fan, rs, onTemp, offTemp);
    CostIsMultiple(|Run(fan, rs, onTemp, offTemp).1|, onTemp - offTemp);
  }

  /** What k commands cost, each but the first one d degrees. */
  function Cost(k: nat, d: nat): nat {
    if k <= 1 then 0 else Cost(k - 1, d) + d
  }

  lemma {:induction false} CostIsMultiple(k: nat, d: nat)
    ensures k >= 1 ==> Cost(k, d) == (k - 1) * d
  {
    if k > 1 {
      CostIsMultiple(k - 1, d);
      assert (k - 1) * d == (k - 2) * d + d;
    }
  }

  /** One second's share: the temperature's move pays for the command, if there is one. */
  lemma StepCost(fan: bool, prev: int, r: Reading, onTemp: int, offTemp: int)
    requires offTemp < onTemp
    ensures var (after, sent) := Step(fan, r, onTemp, offTemp);
            && |sent| <= 1
            && Slack(fan, prev, onTemp, offTemp) + Distance(prev, Temp(r.raw))
               >= Slack(after, Temp(r.raw), onTemp, offTemp) + (if sent == [] then 0 else onTemp - offTemp)
    ensures var (after, sent) := Step(fan, r, onTemp, offTemp);
            sent != [] ==> Slack(after, Temp(r.raw), onTemp, offTemp) == 0
  {
  }

  lemma {:induction false} ChatterCost(fan: bool, rs: seq<Reading>, onTemp: int, offTemp: int)
    requires offTemp < onTemp
    ensures var end := Run(fan, rs, onTemp, offTemp);
            && |end.1| <= |rs|
            && (|end.1| >= 1 ==>
                  Travel(rs) >= Cost(|end.1|, onTemp - offTemp)
                                + Slack(end.0, Temp(rs[|rs| - 1].raw), onTemp, offTemp))
    decreases |rs|
  {
    if rs != [] {
      var n := |rs| - 1;
      var before := Run(fan, rs[..n], onTemp, offTemp);
      var k := |before.1|;
      ChatterCost(fan, rs[..n], onTemp, offTemp);
      if k >= 1 {
        assert rs[..n][n - 1] == rs[n - 1];
        StepCost(before.0, Temp(rs[n - 1].raw), rs[n], onTemp, offTemp);
      } else {
        StepCost(before.0, 0, rs[n], onTemp, offTemp);
      }
    }
  }
}
