/** End-to-end runs of a freshly built thermostat (no display attached),
    as a client of the controller sees them. */
module ThermostatScenarios {
  import opened Text
  import opened ThermostatState
  import opened ThermostatControl

  /** From the defaults, switching to HEAT and then asking for 80F is
      refused (HEAT tops out at 76F) and the target stays at 72F, whether or
      not the mode change reached the unit. */
  method HeatCeilingRejected() returns (err: Option<Error>, mode: Mode, target: int)
    ensures err == Some(InvalidState)
    ensures mode == ModeHeat && target == 72
  {
    var t := new Thermostat(false);
    var _ := t.SetMode(ModeHeat);
    err := t.SetTargetTemperature(80);
    mode, target := t.state.currentMode, t.state.targetTemperature;
  }

  /** The commands of the defaults, powered on, in COOL and in HEAT. */
  lemma DefaultCommands()
    ensures ToLircOn(NewState().(poweredOn := true)) == Ok("cool-on")
    ensures ToLirc(NewState().(poweredOn := true)) == Ok("cool-auto-72F")
    ensures ToLirc(NewState().(poweredOn := true, currentMode := ModeHeat)) == Ok("heat-auto-72F")
  {
    var on := NewState().(poweredOn := true);
    var heat := on.(currentMode := ModeHeat);
    assert IsValid(on) && IsValid(heat);
    assert FormatInt(72) == "72" by {
      assert NatToDecimal(7) == "7";
      assert NatToDecimal(72) == "72";
    }
    assert Lookup(ModeToLirc, ModeCool) == "cool";
    assert Lookup(ModeToLirc, ModeHeat) == "heat";
    assert Lookup(FanSpeedToLirc, FanSpeedAuto) == "auto";
    assert ToLircOn(on).value == "cool-on";
    assert ToLirc(on).value == "cool-auto-72F";
    assert ToLirc(heat).value == "heat-auto-72F";
  }

  /** Without a display, a settling commit is the settle events, the wait
      and the one full command. */
  lemma PlanAfterSettle(s: State)
    requires IsValid(s)
    ensures CommitPlan(s, true, false) == OnStateEvents(s) + [Wait, Send(RemoteCommand(ToLirc(s).value))]
  {
  }

  /** Outside HEAT, the settling commit without a display sends the settle
      command, waits, then sends the full command. */
  lemma SettlingPlanOutsideHeat(s: State)
    requires IsValid(s) && s.currentMode != ModeHeat
    ensures CommitPlan(s, true, false) ==
      [Send(RemoteCommand(ToLircOn(s).value)), Wait, Send(RemoteCommand(ToLirc(s).value))]
  {
    PlanAfterSettle(s);
    assert OnStateEvents(s) == [Send(RemoteCommand(ToLircOn(s).value))];
  }

  /** The plan for powering on from the defaults. */
  lemma DefaultPowerOnPlan()
    ensures IsValid(NewState().(poweredOn := true))
    ensures CommitPlan(NewState().(poweredOn := true), true, false) ==
      [Send(RemoteCommand("cool-on")), Wait, Send(RemoteCommand("cool-auto-72F"))]
  {
    var on := NewState().(poweredOn := true);
    SettlingPlanOutsideHeat(on);
    DefaultCommands();
  }

  /** The plan for powering on in HEAT from the defaults. */
  lemma HeatPowerOnPlan()
    ensures IsValid(NewState().(poweredOn := true, currentMode := ModeHeat))
    ensures CommitPlan(NewState().(poweredOn := true, currentMode := ModeHeat), true, false) ==
      [Wait, Send(RemoteCommand("heat-auto-72F"))]
  {
    var on := NewState().(poweredOn := true, currentMode := ModeHeat);
    DefaultCommands();
    PlanAfterSettle(on);
  }

  /** Running a settle send, the wait and a full send from an empty log
      either completes it or stops after one of the two sends. */
  lemma SettlePlanOutcomes(after: seq<Event>, settle: string, full: string, err: Option<Error>)
    requires Ran([], after, [Send(settle), Wait, Send(full)], err)
    ensures err.None? ==> after == [Send(settle), Wait, Send(full)]
    ensures err.Some? ==> after == [Send(settle)] || after == [Send(settle), Wait, Send(full)]
  {
    assert |after| == 1 || |after| == 2 || |after| == 3;
  }

  /** From the defaults, powering on sends "cool-on", waits, then sends
      "cool-auto-72F"; a failed send cuts the sequence short. */
  method PowerOnFromDefaults() returns (sent: seq<Event>, err: Option<Error>)
    ensures err.None? ==>
      sent == [Send(RemoteCommand("cool-on")), Wait, Send(RemoteCommand("cool-auto-72F"))]
    ensures err.Some? ==>
      sent == [Send(RemoteCommand("cool-on"))] ||
      sent == [Send(RemoteCommand("cool-on")), Wait, Send(RemoteCommand("cool-auto-72F"))]
  {
    var t := new Thermostat(false);
    err := t.SetPower(true);
    sent := t.log;
    DefaultPowerOnPlan();
    SettlePlanOutcomes(sent, RemoteCommand("cool-on"), RemoteCommand("cool-auto-72F"), err);
  }

  /** From the defaults, switching off again sends only "turn-off": no
      settle command and no wait. */
  method PowerOffFromDefaults() returns (sent: seq<Event>, err: Option<Error>)
    ensures sent == [Send("fujitsu_heat_ac turn-off")]
  {
    var t := new Thermostat(false);
    err := t.SetPower(false);
    sent := t.log;
    assert ToLirc(NewState()).value == "turn-off";
    assert RemoteCommand("turn-off") == "fujitsu_heat_ac turn-off";
    assert CurrentStateEvents(NewState(), false) == [Send("fujitsu_heat_ac turn-off")];
  }

  /** In HEAT mode, powering on skips the settle command but keeps the wait. */
  method PowerOnInHeat() returns (sent: seq<Event>, err: Option<Error>)
    ensures err.None? ==> sent == [Wait, Send(RemoteCommand("heat-auto-72F"))]
  {
    var t := new Thermostat(false);
    var e := t.SetMode(ModeHeat);
    var before := t.log;
    err := t.SetPower(true);
    sent := t.log[|before|..];
    HeatPowerOnPlan();
  }
}
