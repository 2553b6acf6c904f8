/** The thermostat controller: it owns the one committed state and turns each
    mutation into an ordered sequence of transport events — the power-on
    settle command, a one-second wait, then the full command — recorded in
    a log. */
module ThermostatControl {
  import opened Text
  import opened ThermostatState

  /** What the controller does to the outside world, in order: an infrared
      send (attempted, whether or not it is delivered), the settle sleep, or
      a write of two (unpadded) lines to the display. */
  datatype Event = Send(command: string) | Wait | Display(line1: string, line2: string)

  /** The remote profile every command is sent under. */
  const Profile: string := "fujitsu_heat_ac"

  /** The name the transport receives for a command: "<profile> <cmd>". */
  function RemoteCommand(cmd: string): (r: string)
    ensures IsRemote(r) && r[|Profile| + 1..] == cmd
  {
    Profile + " " + cmd
  }

  predicate IsRemote(name: string) {
    |name| > |Profile| && name[..|Profile| + 1] == Profile + " "
  }

  /** Every send in `events` goes under the remote profile. */
  predicate AllRemote(events: seq<Event>) {
    forall i :: 0 <= i < |events| && events[i].Send? ==> IsRemote(events[i].command)
  }

  /** The transport-level view of `events`: sends and waits, display writes dropped. */
  function Transmissions(events: seq<Event>): (r: seq<Event>)
    ensures |r| <= |events|
    ensures forall i :: 0 <= i < |r| ==> !r[i].Display?
    decreases |events|
  {
    if events == [] then []
    else (if events[0].Display? then [] else [events[0]]) + Transmissions(events[1..])
  }

  lemma {:induction false} TransmissionsAppend(a: seq<Event>, b: seq<Event>)
    ensures Transmissions(a + b) == Transmissions(a) + Transmissions(b)
    decreases |a|
  {
    if a == [] {
      assert a + b == b;
    } else {
      assert (a + b)[1..] == a[1..] + b;
      TransmissionsAppend(a[1..], b);
    }
  }

  /** The display lines the controller writes for a state: the target
      temperature and mode, then the fan speed, when on; "Thermostat Off"
      and an empty line when off. */
  function DisplayFor(s: State): (r: Event)
    ensures r.Display?
    ensures !s.poweredOn ==> r.line1 == "Thermostat Off" && r.line2 == ""
    ensures s.poweredOn ==>
      var t := FormatInt(s.targetTemperature);
      |r.line1| == 6 + |t| + 3 + |s.currentMode| + 1 &&
      r.line1[..6] == "Temp: " && r.line1[6..6 + |t|] == t &&
      r.line1[6 + |t|..6 + |t| + 3] == "F (" &&
      r.line1[6 + |t| + 3..|r.line1| - 1] == s.currentMode && r.line1[|r.line1| - 1] == ')' &&
      |r.line2| >= 5 && r.line2[..5] == "Fan: " && r.line2[5..] == s.fanSpeed
  {
    if s.poweredOn then
      var t := FormatInt(s.targetTemperature);
      var line1 := "Temp: " + t + "F (" + s.currentMode + ")";
      assert line1[6 + |t|..6 + |t| + 3] == "F (" by {
        assert line1 == ("Temp: " + t) + "F (" + (s.currentMode + ")");
      }
      Display(line1, "Fan: " + s.fanSpeed)
    else Display("Thermostat Off", "")
  }

  /** The command a profiled send carries. */
  function CommandOf(e: Event): string
    requires e.Send? && IsRemote(e.command)
  {
    e.command[|Profile| + 1..]
  }

  /** Events of sending the current state: one send, whose command decodes
      to what the state asks of the unit, then the display update when a
      display is attached. */
  function CurrentStateEvents(s: State, hasDisplay: bool): (r: seq<Event>)
    requires IsValid(s)
    ensures |r| == if hasDisplay then 2 else 1
    ensures r[0].Send? && IsRemote(r[0].command)
    ensures ParseLirc(CommandOf(r[0])) ==
      if !s.poweredOn then Some(TurnOff)
      else Some(Settings(s.currentMode, s.fanSpeed,
                         if s.currentMode == ModeFan then None else Some(s.targetTemperature)))
    ensures forall i :: 1 <= i < |r| ==> r[i].Display?
    ensures hasDisplay ==> r[1] == DisplayFor(s)
  {
    ToLircRoundTrip(s);
    [Send(RemoteCommand(ToLirc(s).value))] + (if hasDisplay then [DisplayFor(s)] else [])
  }

  /** Events of sending the settle command: none in HEAT mode, otherwise
      one send that decodes to powering on in the state's mode (or to
      turning off, for a state that is off). */
  function OnStateEvents(s: State): (r: seq<Event>)
    requires IsValid(s)
    ensures r == [] <==> s.currentMode == ModeHeat
    ensures |r| <= 1
    ensures r != [] ==>
      (r[0].Send? && IsRemote(r[0].command) &&
       ParseLirc(CommandOf(r[0])) == Some(if s.poweredOn then PowerOn(s.currentMode) else TurnOff))
  {
    if s.currentMode == ModeHeat then []
    else
      var cmd := ToLircOn(s).value;
      assert ParseLirc(cmd) == Some(if s.poweredOn then PowerOn(s.currentMode) else TurnOff) by {
        if s.poweredOn { ToLircOnRoundTrip(s); }
      }
      [Send(RemoteCommand(cmd))]
  }

  /** Everything a mutation emits once `s` is committed: with `settle`, the
      settle command and the wait first; then the current state. Every send
      goes under the remote profile, and there is a wait exactly when settling. */
  function CommitPlan(s: State, settle: bool, hasDisplay: bool): (r: seq<Event>)
    requires IsValid(s)
    ensures AllRemote(r)
    ensures Wait in r <==> settle
  {
    var pre := if settle then OnStateEvents(s) + [Wait] else [];
    var r := pre + CurrentStateEvents(s, hasDisplay);
    assert settle ==> r[|pre| - 1] == Wait;
    assert forall i :: 0 <= i < |r| ==> r[i] == Wait ==> i < |pre|;
    r
  }

  /** The transport sees, in order: with `settle`, the settle command
      (except in HEAT mode) and the wait; then exactly one full command. */
  lemma {:induction false} CommitPlanTransmissions(s: State, settle: bool, hasDisplay: bool)
    requires IsValid(s)
    ensures Transmissions(CommitPlan(s, settle, hasDisplay)) ==
      (if settle && s.currentMode != ModeHeat then [Send(RemoteCommand(ToLircOn(s).value))] else []) +
      (if settle then [Wait] else []) +
      [Send(RemoteCommand(ToLirc(s).value))]
  {
    var full := [Send(RemoteCommand(ToLirc(s).value))];
    var shown := if hasDisplay then [DisplayFor(s)] else [];
    TransmissionsAppend(full, shown);
    assert Transmissions(shown) == [] by {
      if hasDisplay {
        assert shown[1..] == [];
      }
    }
    assert Transmissions(full) == full by {
      assert full[1..] == [];
    }
    if settle {
      var on := OnStateEvents(s);
      TransmissionsAppend(on + [Wait], CurrentStateEvents(s, hasDisplay));
      TransmissionsAppend(on, [Wait]);
      assert Transmissions([Wait]) == [Wait] by {
        assert [Wait][1..] == [];
      }
      assert Transmissions(on) == on by {
        if on != [] {
          assert on[1..] == [];
        }
      }
    }
  }

  /** `after` is `before` followed by the part of `plan` that ran: all of it
      on success; on a transport failure, everything up to and including the
      send that failed. */
  ghost predicate Ran(before: seq<Event>, after: seq<Event>, plan: seq<Event>, err: Option<Error>) {
    |before| <= |after| <= |before| + |plan| &&
    after == before + plan[..|after| - |before|] &&
    (err.None? ==> after == before + plan) &&
    (err.Some? ==> err.value == TransportFailure && |after| > |before| && after[|after| - 1].Send?)
  }

  lemma RanThen(log0: seq<Event>, log1: seq<Event>, log2: seq<Event>,
                p1: seq<Event>, p2: seq<Event>, err: Option<Error>)
    requires Ran(log0, log1, p1, None) && Ran(log1, log2, p2, err)
    ensures Ran(log0, log2, p1 + p2, err)
  {
    assert log2 == log0 + p1 + p2[..|log2| - |log1|];
    assert (p1 + p2)[..|log2| - |log0|] == p1 + p2[..|log2| - |log1|];
  }

  lemma RanAborted(log0: seq<Event>, log1: seq<Event>, p1: seq<Event>, p2: seq<Event>, err: Option<Error>)
    requires Ran(log0, log1, p1, err) && err.Some?
    ensures Ran(log0, log1, p1 + p2, err)
  {
    assert (p1 + p2)[..|log1| - |log0|] == p1[..|log1| - |log0|];
  }

  lemma SettleAborted(log0: seq<Event>, log1: seq<Event>, s: State, hasDisplay: bool, err: Option<Error>)
    requires IsValid(s) && Ran(log0, log1, OnStateEvents(s), err) && err.Some?
    ensures Ran(log0, log1, CommitPlan(s, true, hasDisplay), err)
  {
    RanAborted(log0, log1, OnStateEvents(s), [Wait] + CurrentStateEvents(s, hasDisplay), err);
    assert OnStateEvents(s) + ([Wait] + CurrentStateEvents(s, hasDisplay)) == CommitPlan(s, true, hasDisplay);
  }

  lemma PlanRan(log0: seq<Event>, mid: seq<Event>, log1: seq<Event>, log2: seq<Event>,
                s: State, settle: bool, hasDisplay: bool, err: Option<Error>)
    requires IsValid(s)
    requires settle ==> Ran(log0, mid, OnStateEvents(s), None) && log1 == mid + [Wait]
    requires !settle ==> log1 == log0
    requires Ran(log1, log2, CurrentStateEvents(s, hasDisplay), err)
    ensures Ran(log0, log2, CommitPlan(s, settle, hasDisplay), err)
  {
    if settle {
      RanThen(log0, mid, log1, OnStateEvents(s), [Wait], None);
      RanThen(log0, log1, log2, OnStateEvents(s) + [Wait], CurrentStateEvents(s, hasDisplay), err);
    } else {
      RanThen(log0, log0, log2, [], CurrentStateEvents(s, hasDisplay), err);
    }
  }

  /** After a whole plan has run, the last transmission is the full command. */
  lemma PlanEndsInSync(log0: seq<Event>, s: State, settle: bool, hasDisplay: bool)
    requires IsValid(s)
    ensures var sent := Transmissions(log0 + CommitPlan(s, settle, hasDisplay));
      |sent| > 0 && sent[|sent| - 1] == Send(RemoteCommand(ToLirc(s).value))
  {
    TransmissionsAppend(log0, CommitPlan(s, settle, hasDisplay));
    CommitPlanTransmissions(s, settle, hasDisplay);
  }

  class Thermostat {
    /** The committed state. */
    var state: State
    /** Everything sent, waited for and displayed so far. */
    var log: seq<Event>
    /** Whether a display is attached. */
    const hasDisplay: bool

    /** A committed state is always valid, and every send so far went under
        the remote profile. */
    ghost predicate Valid()
      reads this
    {
      IsValid(state) && AllRemote(log)
    }

    /** The last command the transport was given is the committed state's
        full command. */
    ghost predicate InSync()
      reads this
      requires Valid()
    {
      var sent := Transmissions(log);
      |sent| > 0 && sent[|sent| - 1] == Send(RemoteCommand(ToLirc(state).value))
    }

    constructor (hasDisplay: bool)
      ensures Valid() && state == NewState() && log == [] && this.hasDisplay == hasDisplay
    {
      state := NewState();
      log := [];
      this.hasDisplay := hasDisplay;
    }

    /** Hands one command to the transport. Delivery may fail; the attempt
        is recorded either way. */
    method SendCommand(cmd: string) returns (err: Option<Error>)
      requires Valid()
      modifies this`log
      ensures Valid()
      ensures Ran(old(log), log, [Send(RemoteCommand(cmd))], err)
    {
      log := log + [Send(RemoteCommand(cmd))];
      var delivered: bool := *;
      err := if delivered then None else Some(TransportFailure);
    }

    /** Sends the settle command for the committed state, except in HEAT mode. */
    method SendOnState() returns (err: Option<Error>)
      requires Valid()
      modifies this`log
      ensures Valid()
      ensures Ran(old(log), log, OnStateEvents(state), err)
    {
      if state.currentMode == ModeHeat {
        return None;
      }
      // ToLircOn cannot fail here: the committed state is valid.
      var onCmd := ToLircOn(state).value;
      err := SendCommand(onCmd);
    }

    /** Sends the committed state's full command, then updates the display;
        display errors are ignored. */
    method SendCurrentState() returns (err: Option<Error>)
      requires Valid()
      modifies this`log
      ensures Valid()
      ensures Ran(old(log), log, CurrentStateEvents(state, hasDisplay), err)
    {
      // ToLirc cannot fail here: the committed state is valid.
      var cmd := ToLirc(state).value;
      err := SendCommand(cmd);
      if err.Some? {
        RanAborted(old(log), log, [Send(RemoteCommand(cmd))], if hasDisplay then [DisplayFor(state)] else [], err);
        return;
      }
      if hasDisplay {
        log := log + [DisplayFor(state)];
      }
    }

    /** Emits the plan for the newly committed state (`settle` adds the
        settle command and the wait). */
    method Emit(settle: bool) returns (err: Option<Error>)
      requires Valid()
      modifies this`log
      ensures Valid()
      ensures Ran(old(log), log, CommitPlan(state, settle, hasDisplay), err)
      ensures err.None? ==> InSync()
    {
      ghost var log0, mid := log, log;
      if settle {
        err := SendOnState();
        if err.Some? {
          SettleAborted(log0, log, state, hasDisplay, err);
          return;
        }
        mid := log;
        log := log + [Wait];
      }
      ghost var log1 := log;
      err := SendCurrentState();
      PlanRan(log0, mid, log1, log, state, settle, hasDisplay, err);
      if err.None? {
        PlanEndsInSync(log0, state, settle, hasDisplay);
      }
    }

    /** Returns to the default state and sends it. */
    method Reset() returns (err: Option<Error>)
      requires Valid()
      modifies this`state, this`log
      ensures Valid() && state == NewState()
      ensures Ran(old(log), log, CommitPlan(state, false, hasDisplay), err)
      ensures err.None? ==> InSync()
    {
      state := NewState();
      err := Emit(false);
    }

    /** Turns the unit on or off. Turning on sends the settle command and
        waits before the full command, even when the unit was already on. */
    method SetPower(power: bool) returns (err: Option<Error>)
      requires Valid()
      modifies this`state, this`log
      ensures Valid()
      ensures state == old(state).(poweredOn := power)
      ensures Ran(old(log), log, CommitPlan(state, power, hasDisplay), err)
      ensures err.None? ==> InSync()
    {
      var next, e := ThermostatState.SetPower(state, power);
      // The InvalidState return cannot happen: the committed state is valid.
      assert e.None?;
      state := next;
      err := Emit(power);
    }

    /** Sets the target temperature; an invalid one changes nothing. */
    method SetTargetTemperature(temp: int) returns (err: Option<Error>)
      requires Valid()
      modifies this`state, this`log
      ensures Valid()
      ensures err == Some(InvalidState) <==> !TemperatureAllowed(old(state).currentMode, temp)
      ensures err == Some(InvalidState) ==> state == old(state) && log == old(log)
      ensures err != Some(InvalidState) ==>
        state == old(state).(targetTemperature := temp) &&
        Ran(old(log), log, CommitPlan(state, false, hasDisplay), err)
      ensures err.None? ==> InSync()
    {
      ValidityCharacterized(state);
      var next, e := ThermostatState.SetTargetTemperature(state, temp);
      if e.Some? {
        return e;
      }
      state := next;
      err := Emit(false);
    }

    /** Sets the mode; an unknown mode, or one that rejects the target
        temperature, changes nothing. */
    method SetMode(mode: Mode) returns (err: Option<Error>)
      requires Valid()
      modifies this`state, this`log
      ensures Valid()
      ensures err == Some(InvalidState) <==>
        !(ModeIsValid(mode) && TemperatureAllowed(mode, old(state).targetTemperature))
      ensures err == Some(InvalidState) ==> state == old(state) && log == old(log)
      ensures err != Some(InvalidState) ==>
        state == old(state).(currentMode := mode) &&
        Ran(old(log), log, CommitPlan(state, false, hasDisplay), err)
      ensures err.None? ==> InSync()
    {
      ValidityCharacterized(state);
      var next, e := ThermostatState.SetMode(state, mode);
      if e.Some? {
        return e;
      }
      state := next;
      err := Emit(false);
    }

    /** Sets the fan speed; an unknown speed changes nothing. */
    method SetFanSpeed(speed: FanSpeed) returns (err: Option<Error>)
      requires Valid()
      modifies this`state, this`log
      ensures Valid()
      ensures err == Some(InvalidState) <==> !FanSpeedIsValid(speed)
      ensures err == Some(InvalidState) ==> state == old(state) && log == old(log)
      ensures err != Some(InvalidState) ==>
        state == old(state).(fanSpeed := speed) &&
        Ran(old(log), log, CommitPlan(state, false, hasDisplay), err)
      ensures err.None? ==> InSync()
    {
      ValidityCharacterized(state);
      var next, e := ThermostatState.SetFanSpeed(state, speed);
      if e.Some? {
        return e;
      }
      state := next;
      err := Emit(false);
    }

    /** Replaces the whole state. An invalid candidate changes nothing;
        otherwise it is committed before anything is sent, and the settle
        command and wait happen only on the off-to-on edge. */
    method SetState(candidate: State) returns (err: Option<Error>)
      requires Valid()
      modifies this`state, this`log
      ensures Valid()
      ensures !IsValid(candidate) ==> err == Some(InvalidState) && state == old(state) && log == old(log)
      ensures IsValid(candidate) ==>
        state == candidate &&
        Ran(old(log), log, CommitPlan(candidate, !old(state).poweredOn && candidate.poweredOn, hasDisplay), err)
      ensures err.None? ==> InSync()
    {
      if !IsValid(candidate) {
        return Some(InvalidState);
      }
      var sendOn := !state.poweredOn && candidate.poweredOn;
      state := candidate;
      err := Emit(sendOn);
    }
  }
}
