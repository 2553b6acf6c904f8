/** The thermostat state value: power, mode, fan speed and temperatures, its
    validity rule, its rendering as LIRC command names for the Fujitsu
    remote profile, and the copy-validate-commit setters. */
module ThermostatState {
  import opened Text

  datatype Option<T> = None | Some(value: T)

  /** The kinds of error the core reports. Validation failures are
      `InvalidState`; a failed infrared send is `TransportFailure`. */
  datatype Error = InvalidState | TransportFailure

  datatype Result<T> = Ok(value: T) | Err(error: Error)

  /** Modes and fan speeds are string-like in the source, so any token an API
      caller sends can reach the validity check. */
  type Mode = string
  type FanSpeed = string

  const ModeCool: Mode := "COOL"
  const ModeDry: Mode := "DRY"
  const ModeHeat: Mode := "HEAT"
  const ModeFan: Mode := "FAN"

  const FanSpeedAuto: FanSpeed := "AUTO"
  const FanSpeedQuiet: FanSpeed := "QUIET"
  const FanSpeedLow: FanSpeed := "LOW"
  const FanSpeedMedium: FanSpeed := "MEDIUM"
  const FanSpeedHigh: FanSpeed := "HIGH"

  datatype State = State(
    poweredOn: bool,
    currentMode: Mode,
    fanSpeed: FanSpeed,
    targetTemperature: int,    // degrees Fahrenheit
    currentTemperature: int    // stored only; never validated or sent
  )

  /** A mode is valid exactly when the wire-token table knows it. */
  predicate ModeIsValid(m: Mode)
    ensures ModeIsValid(m) <==> m in ModeToLirc
  {
    m in {ModeCool, ModeDry, ModeHeat, ModeFan}
  }

  /** A fan speed is valid exactly when the wire-token table knows it. */
  predicate FanSpeedIsValid(f: FanSpeed)
    ensures FanSpeedIsValid(f) <==> f in FanSpeedToLirc
  {
    f in {FanSpeedAuto, FanSpeedQuiet, FanSpeedLow, FanSpeedMedium, FanSpeedHigh}
  }

  /** Go's `%` operator by 2, the only divisor the source uses: the remainder
      truncated toward zero, which takes the sign of the dividend (Dafny's `%`
      is Euclidean). It is zero exactly for even numbers, and 1 or -1 for odd
      ones, following the sign. */
  function GoRem(a: int, b: int): (r: int)
    requires b == 2
    ensures r == 0 <==> a % 2 == 0
    ensures r != 0 ==> (r == 1 <==> a > 0) && (r == -1 <==> a < 0)
  {
    if a >= 0 then a % b else -((-a) % b)
  }

  /** The default state a thermostat starts with and returns to on reset. */
  function NewState(): (s: State)
    ensures IsValid(s) && !s.poweredOn
    ensures s.currentMode == ModeCool && s.fanSpeed == FanSpeedAuto
    ensures s.targetTemperature == 72 && s.currentTemperature == 0
  {
    State(false, ModeCool, FanSpeedAuto, 72, 0)
  }

  /** The validity rule, in the shape the source checks it: known mode and
      fan speed, then a floor and ceiling that HEAT lowers, then evenness. */
  predicate IsValid(s: State)
    ensures IsValid(s) ==> 60 <= s.targetTemperature <= 88 && s.targetTemperature % 2 == 0
    ensures IsValid(s) ==> s.currentMode in ModeToLirc && s.fanSpeed in FanSpeedToLirc
  {
    if !ModeIsValid(s.currentMode) || !FanSpeedIsValid(s.fanSpeed) then false
    else
      var floor := if s.currentMode == ModeHeat then 60 else 64;
      var ceil := if s.currentMode == ModeHeat then 76 else 88;
      !(s.targetTemperature < floor || s.targetTemperature > ceil || GoRem(s.targetTemperature, 2) != 0)
  }

  /** The temperatures a mode accepts, stated independently: HEAT takes the
      even values 60..76, every other mode the even values 64..88. */
  predicate TemperatureAllowed(m: Mode, t: int) {
    (if m == ModeHeat then 60 <= t <= 76 else 64 <= t <= 88) && t % 2 == 0
  }

  lemma ValidityCharacterized(s: State)
    ensures IsValid(s) <==>
      ModeIsValid(s.currentMode) && FanSpeedIsValid(s.fanSpeed) &&
      TemperatureAllowed(s.currentMode, s.targetTemperature)
  {
  }

  /** Validity never looks at power or at the measured temperature. */
  lemma ValidityIgnoresPowerAndCurrentTemperature(s: State, power: bool, current: int)
    ensures IsValid(s.(poweredOn := power, currentTemperature := current)) == IsValid(s)
  {
  }

  /** The wire-token tables. */
  const ModeToLirc: map<Mode, string> :=
    map[ModeHeat := "heat", ModeCool := "cool", ModeDry := "dry", ModeFan := "fan"]

  const FanSpeedToLirc: map<FanSpeed, string> :=
    map[FanSpeedAuto := "auto", FanSpeedHigh := "high", FanSpeedMedium := "medium",
        FanSpeedLow := "low", FanSpeedQuiet := "quiet"]

  /** A Go map index: the zero value "" for a key the table lacks. */
  function Lookup(table: map<string, string>, key: string): (r: string)
    ensures r != "" ==> key in table && r == table[key]
    ensures r == "" <==> key !in table || table[key] == ""
  {
    if key in table then table[key] else ""
  }

  /** The full LIRC command for a state. */
  function ToLirc(s: State): (r: Result<string>)
    ensures r.Err? <==> !IsValid(s)
    ensures r.Err? ==> r.error == InvalidState
  {
    if !IsValid(s) then Err(InvalidState)
    else if !s.poweredOn then Ok("turn-off")
    else
      var cmd := Lookup(ModeToLirc, s.currentMode) + "-" + Lookup(FanSpeedToLirc, s.fanSpeed);
      if s.currentMode != ModeFan then Ok(cmd + "-" + FormatInt(s.targetTemperature) + "F")
      else Ok(cmd)
  }

  /** The power-on ("settle") command sent ahead of the full command. */
  function ToLircOn(s: State): (r: Result<string>)
    ensures r.Err? <==> !IsValid(s)
    ensures r.Err? ==> r.error == InvalidState
  {
    if !IsValid(s) then Err(InvalidState)
    else if !s.poweredOn then Ok("turn-off")
    else Ok(Lookup(ModeToLirc, s.currentMode) + "-on")
  }

  /** Powered off, both encoders give "turn-off" whatever the other fields are. */
  lemma PoweredOffEncodesTurnOff(s: State)
    requires IsValid(s) && !s.poweredOn
    ensures ToLirc(s) == Ok("turn-off") && ToLircOn(s) == Ok("turn-off")
  {
  }

  /** Powered on, the command is mode token, dash, fan token, and a two-digit
      "-<temp>F" suffix exactly when the mode is not FAN; the settle command is
      the mode token followed by "-on". */
  lemma PoweredOnEncoding(s: State)
    requires IsValid(s) && s.poweredOn
    ensures s.currentMode in ModeToLirc && s.fanSpeed in FanSpeedToLirc
    ensures ToLirc(s).value ==
      ModeToLirc[s.currentMode] + "-" + FanSpeedToLirc[s.fanSpeed] +
      (if s.currentMode == ModeFan then "" else "-" + NatToDecimal(s.targetTemperature) + "F")
    ensures |NatToDecimal(s.targetTemperature)| == 2
    ensures ToLircOn(s).value == ModeToLirc[s.currentMode] + "-on"
  {
    assert 60 <= s.targetTemperature <= 88;
  }

  // ---- Reading a command back (the reference partner of the encoders) ----

  /** What a command name tells the appliance. */
  datatype LircCommand =
    | TurnOff
    | PowerOn(mode: Mode)
    | Settings(mode: Mode, fanSpeed: FanSpeed, temperature: Option<int>)

  function ModeOfToken(token: string): Option<Mode> {
    if token == "heat" then Some(ModeHeat)
    else if token == "cool" then Some(ModeCool)
    else if token == "dry" then Some(ModeDry)
    else if token == "fan" then Some(ModeFan)
    else None
  }

  function FanSpeedOfToken(token: string): Option<FanSpeed> {
    if token == "auto" then Some(FanSpeedAuto)
    else if token == "high" then Some(FanSpeedHigh)
    else if token == "medium" then Some(FanSpeedMedium)
    else if token == "low" then Some(FanSpeedLow)
    else if token == "quiet" then Some(FanSpeedQuiet)
    else None
  }

  /** "<digits>F" read as a temperature. */
  function TemperatureOfField(field: string): Option<int> {
    if |field| >= 2 && field[|field| - 1] == 'F' && AllDigits(field[..|field| - 1])
    then Some(DecimalValue(field[..|field| - 1]))
    else None
  }

  /** Decodes a command name into what it asks of the appliance. */
  function ParseLirc(cmd: string): Option<LircCommand> {
    if cmd == "turn-off" then Some(TurnOff)
    else
      var fields := Split(cmd, '-');
      if |fields| == 2 && fields[1] == "on" then
        match ModeOfToken(fields[0])
        case Some(m) => Some(PowerOn(m))
        case None => None
      else if |fields| == 2 || |fields| == 3 then
        var m, f := ModeOfToken(fields[0]), FanSpeedOfToken(fields[1]);
        if m.None? || f.None? then None
        else if |fields| == 2 then Some(Settings(m.value, f.value, None))
        else
          match TemperatureOfField(fields[2])
          case Some(t) => Some(Settings(m.value, f.value, Some(t)))
          case None => None
      else None
  }

  lemma ModeTokenRoundTrip(m: Mode)
    requires ModeIsValid(m)
    ensures m in ModeToLirc && '-' !in ModeToLirc[m]
    ensures ModeOfToken(ModeToLirc[m]) == Some(m)
    ensures |ModeToLirc[m]| > 0 && ModeToLirc[m][0] != 't'
  {
  }

  lemma FanSpeedTokenRoundTrip(f: FanSpeed)
    requires FanSpeedIsValid(f)
    ensures f in FanSpeedToLirc && '-' !in FanSpeedToLirc[f] && FanSpeedToLirc[f] != "on"
    ensures FanSpeedOfToken(FanSpeedToLirc[f]) == Some(f)
  {
  }

  /** Decoding the full command of a valid state gives back what the state
      asks for: off, or its mode, its fan speed and, except in FAN mode, its
      target temperature. */
  lemma ToLircRoundTrip(s: State)
    requires IsValid(s)
    ensures ParseLirc(ToLirc(s).value) ==
      if !s.poweredOn then Some(TurnOff)
      else Some(Settings(s.currentMode, s.fanSpeed,
                         if s.currentMode == ModeFan then None else Some(s.targetTemperature)))
  {
    if s.poweredOn {
      var m, f, t := s.currentMode, s.fanSpeed, s.targetTemperature;
      ModeTokenRoundTrip(m);
      FanSpeedTokenRoundTrip(f);
      var mt, ft := ModeToLirc[m], FanSpeedToLirc[f];
      var cmd := ToLirc(s).value;
      assert cmd[0] == mt[0];
      if m == ModeFan {
        assert cmd == mt + ['-'] + ft;
        SplitAfterField(mt, '-', ft);
        SplitWithoutSeparator(ft, '-');
      } else {
        var d := NatToDecimal(t);
        var tail := d + "F";
        assert cmd == mt + ['-'] + (ft + ['-'] + tail);
        assert '-' !in tail by {
          assert forall i :: 0 <= i < |tail| ==> tail[i] == 'F' || IsDigit(tail[i]);
        }
        SplitAfterField(mt, '-', ft + ['-'] + tail);
        SplitAfterField(ft, '-', tail);
        SplitWithoutSeparator(tail, '-');
        assert tail[..|tail| - 1] == d;
        DecimalRoundTrip(t);
      }
    }
  }

  /** Decoding the settle command of a valid powered-on state gives its mode. */
  lemma ToLircOnRoundTrip(s: State)
    requires IsValid(s) && s.poweredOn
    ensures ParseLirc(ToLircOn(s).value) == Some(PowerOn(s.currentMode))
  {
    ModeTokenRoundTrip(s.currentMode);
    var mt := ModeToLirc[s.currentMode];
    var cmd := ToLircOn(s).value;
    assert cmd[0] == mt[0];
    assert cmd == mt + ['-'] + "on";
    SplitAfterField(mt, '-', "on");
    SplitWithoutSeparator("on", '-');
  }

  /** Two valid powered-on states with the same command agree on mode and fan
      speed, and on the target temperature unless the mode is FAN; the settle
      command is never mistaken for a full command. */
  lemma CommandDeterminesSettings(s1: State, s2: State)
    requires IsValid(s1) && IsValid(s2) && s1.poweredOn && s2.poweredOn
    ensures ToLirc(s1) == ToLirc(s2) ==>
      s1.currentMode == s2.currentMode && s1.fanSpeed == s2.fanSpeed &&
      (s1.currentMode != ModeFan ==> s1.targetTemperature == s2.targetTemperature)
    ensures ToLircOn(s1) != ToLirc(s2)
  {
    ToLircRoundTrip(s1);
    ToLircRoundTrip(s2);
    ToLircOnRoundTrip(s1);
  }

  // ---- Copy-validate-commit setters (pointer receivers in the source) ----

  /** Sets the power. Succeeds exactly when the state is already valid. */
  method SetPower(s: State, power: bool) returns (s': State, err: Option<Error>)
    ensures err.None? <==> IsValid(s)
    ensures err.Some? ==> err.value == InvalidState && s' == s
    ensures err.None? ==> s' == s.(poweredOn := power) && IsValid(s')
  {
    var draft := s.(poweredOn := power);
    if !IsValid(draft) {
      return s, Some(InvalidState);
    }
    s', err := s.(poweredOn := power), None;
  }

  /** Sets the mode. Succeeds exactly when the mode is known and accepts the
      current target temperature (and the fan speed is valid). */
  method SetMode(s: State, mode: Mode) returns (s': State, err: Option<Error>)
    ensures err.None? <==>
      ModeIsValid(mode) && FanSpeedIsValid(s.fanSpeed) && TemperatureAllowed(mode, s.targetTemperature)
    ensures err.Some? ==> err.value == InvalidState && s' == s
    ensures err.None? ==> s' == s.(currentMode := mode) && IsValid(s')
  {
    var draft := s.(currentMode := mode);
    ValidityCharacterized(draft);
    if !IsValid(draft) {
      return s, Some(InvalidState);
    }
    s', err := s.(currentMode := mode), None;
  }

  /** Sets the fan speed. Succeeds exactly when the speed is known and the
      rest of the state is valid. */
  method SetFanSpeed(s: State, speed: FanSpeed) returns (s': State, err: Option<Error>)
    ensures err.None? <==>
      FanSpeedIsValid(speed) && ModeIsValid(s.currentMode) && TemperatureAllowed(s.currentMode, s.targetTemperature)
    ensures err.Some? ==> err.value == InvalidState && s' == s
    ensures err.None? ==> s' == s.(fanSpeed := speed) && IsValid(s')
  {
    var draft := s.(fanSpeed := speed);
    ValidityCharacterized(draft);
    if !IsValid(draft) {
      return s, Some(InvalidState);
    }
    s', err := s.(fanSpeed := speed), None;
  }

  /** Sets the target temperature. Succeeds exactly when the current mode
      accepts it (and mode and fan speed are valid). */
  method SetTargetTemperature(s: State, temp: int) returns (s': State, err: Option<Error>)
    ensures err.None? <==>
      TemperatureAllowed(s.currentMode, temp) && ModeIsValid(s.currentMode) && FanSpeedIsValid(s.fanSpeed)
    ensures err.Some? ==> err.value == InvalidState && s' == s
    ensures err.None? ==> s' == s.(targetTemperature := temp) && IsValid(s')
  {
    var draft := s.(targetTemperature := temp);
    ValidityCharacterized(draft);
    if !IsValid(draft) {
      return s, Some(InvalidState);
    }
    s', err := s.(targetTemperature := temp), None;
  }
}
