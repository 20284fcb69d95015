/**
 * The thermostat entity of one Besmart room: the readings it keeps from the
 * room data, how a poll refreshes them (defaults for unreadable values,
 * escaping exceptions that leave a partial update), and the writes it asks
 * the client for when a preset, a heating/cooling mode or setpoints are set.
 */
module Climate {
  import opened Wrappers
  import opened Json
  import opened Payload
  import opened Session
  import opened SessionFacts
  import opened Schedule
  import opened Views
  import Client
  import Tenths

  /**
   * The thermostat's readings. Temperatures are reals; `battery` is the
   * string "0" until the first poll and a boolean after; `currentUnit` and
   * `season` are whatever the room data held.
   */
  datatype Snapshot = Snapshot(
    tempSetMark: Value,
    battery: Value,
    frostT: real,
    saveT: real,
    comfT: real,
    currentTemp: real,
    heating: bool,
    currentState: int,
    currentUnit: Value,
    season: Value)

  /** The readings of a new thermostat, before its first poll. */
  const INITIAL := Snapshot(Num(0), Str("0"), 0.0, 0.0, 0.0, 0.0, false, IDLE, Num(0), Str("1"))

  /** The readings taken when a temperature cannot be parsed. */
  const FROST_DEFAULT := 5.0
  const SAVE_DEFAULT := 16.0
  const COMFORT_DEFAULT := 20.0
  const TEMP_NOW_DEFAULT := 20.0

  /** `float(v)`, with `default` when that raises ValueError; None when it raises TypeError, which escapes. */
  function Reading(v: Value, default: real): Option<real> {
    match ToFloat(v)
    case Converted(x) => Some(x)
    case ValueError => Some(default)
    case TypeError => None
  }

  /**
   * One poll given the room data `data` that the lookup returned: the new
   * readings and whether an exception escaped. Nothing changes unless the
   * data is a truthy dict whose `error` is 0; a truthy value that is not a
   * dict raises at once.
   */
  function Refresh(before: Snapshot, data: Value, clock: Clock): (Snapshot, bool)
    requires Valid(clock)
  {
    if !Truthy(data) then (before, false)
    else
      match Get(data, "error")
      case None => (before, true)
      case Some(error) =>
        if !EqualsInt(error, READ_CONFIRMED) then (before, false)
        else Apply(before, data.fields, clock)
  }

  /**
   * The readings taken from a confirmed room record, in the order the poll
   * takes them; a reading whose `float` or `int` raises TypeError stops
   * the poll there, keeping the readings taken before it.
   */
  function Apply(before: Snapshot, fields: map<string, Value>, clock: Clock): (Snapshot, bool)
    requires Valid(clock)
  {
    Setpoints(before.(tempSetMark := Mark(fields, clock),
                      battery := Bool(Truthy(FieldOr(fields, "bat", Str("0"))))), fields)
  }

  /** The frost, economy and comfort setpoints, then the current readings. */
  function Setpoints(s: Snapshot, fields: map<string, Value>): (Snapshot, bool) {
    match Reading(FieldOr(fields, "frostT", Null), FROST_DEFAULT)
    case None => (s, true)
    case Some(frost) =>
      var s1 := s.(frostT := frost);
      match Reading(FieldOr(fields, "saveT", Null), SAVE_DEFAULT)
      case None => (s1, true)
      case Some(save) =>
        var s2 := s1.(saveT := save);
        match Reading(FieldOr(fields, "comfT", Null), COMFORT_DEFAULT)
        case None => (s2, true)
        case Some(comf) => Current(s2.(comfT := comf), fields)
  }

  /** The current temperature, the heating flag, the work mode, the unit and the season. */
  function Current(s: Snapshot, fields: map<string, Value>): (Snapshot, bool) {
    match Reading(FieldOr(fields, "tempNow", Null), TEMP_NOW_DEFAULT)
    case None => (s, true)
    case Some(temp) =>
      var s1 := s.(currentTemp := temp, heating := FieldOr(fields, "heating", Str("")) == Str("1"));
      match ToInt(FieldOr(fields, "mode", Null))
      case TypeError => (s1, true)
      case ValueError => (Finish(s1.(currentTemp := 0.0), fields), false)
      case Converted(mode) => (Finish(s1.(currentState := mode), fields), false)
  }

  /** The last two readings, which cannot raise. */
  function Finish(s: Snapshot, fields: map<string, Value>): Snapshot {
    s.(currentUnit := FieldOr(fields, "tempUnit", Null), season := FieldOr(fields, "season", Null))
  }

  // ---------------------------------------------------------------------------
  // What a poll guarantees
  // ---------------------------------------------------------------------------

  /** The room data answers a poll: a dict whose `error` is 0. */
  predicate ConfirmedData(data: Value) {
    data.Obj? && EqualsInt(FieldOr(data.fields, "error", Null), READ_CONFIRMED)
  }

  /** None of the five numeric readings raises TypeError: each is present and a scalar other than null. */
  predicate Typed(fields: map<string, Value>) {
    (forall key :: key in {"frostT", "saveT", "comfT", "tempNow"} ==> !ToFloat(FieldOr(fields, key, Null)).TypeError?)
    && !ToInt(FieldOr(fields, "mode", Null)).TypeError?
  }

  /**
   * Unconfirmed data leaves the readings as they were; it raises exactly
   * when it is a truthy value that is not a dict.
   */
  lemma UnconfirmedKeepsReadings(before: Snapshot, data: Value, clock: Clock)
    requires Valid(clock) && !ConfirmedData(data)
    ensures Refresh(before, data, clock) == (before, Truthy(data) && !data.Obj?)
  {
  }

  /**
   * Confirmed data whose readings are all typed is taken completely: every
   * temperature is its value or its default, the heating flag is set exactly
   * by the string "1", the work mode is taken when it parses (and the current
   * temperature zeroed when it does not), the unit and season are copied,
   * and nothing raises.
   */
  lemma ConfirmedTakesAll(before: Snapshot, data: Value, clock: Clock)
    requires Valid(clock) && ConfirmedData(data) && Typed(data.fields)
    ensures var (after, raised) := Refresh(before, data, clock);
      var fields := data.fields;
      !raised
      && after.tempSetMark == Mark(fields, clock)
      && after.frostT == Reading(FieldOr(fields, "frostT", Null), FROST_DEFAULT).value
      && after.saveT == Reading(FieldOr(fields, "saveT", Null), SAVE_DEFAULT).value
      && after.comfT == Reading(FieldOr(fields, "comfT", Null), COMFORT_DEFAULT).value
      && (after.heating <==> FieldOr(fields, "heating", Null) == Str("1"))
      && after.currentTemp ==
         (if ToInt(FieldOr(fields, "mode", Null)).ValueError? then 0.0
          else Reading(FieldOr(fields, "tempNow", Null), TEMP_NOW_DEFAULT).value)
      && after.currentState ==
         (if ToInt(FieldOr(fields, "mode", Null)).ValueError? then before.currentState
          else ToInt(FieldOr(fields, "mode", Null)).value)
      && after.currentUnit == FieldOr(fields, "tempUnit", Null)
      && after.season == FieldOr(fields, "season", Null)
  {
    var fields := data.fields;
    assert !ToFloat(FieldOr(fields, "frostT", Null)).TypeError?;
    assert !ToFloat(FieldOr(fields, "saveT", Null)).TypeError?;
    assert !ToFloat(FieldOr(fields, "comfT", Null)).TypeError?;
    assert !ToFloat(FieldOr(fields, "tempNow", Null)).TypeError?;
    var s0 := before.(tempSetMark := Mark(fields, clock), battery := Bool(Truthy(FieldOr(fields, "bat", Str("0")))));
    assert Refresh(before, data, clock) == Setpoints(s0, fields);
    var frost := Reading(FieldOr(fields, "frostT", Null), FROST_DEFAULT).value;
    var save := Reading(FieldOr(fields, "saveT", Null), SAVE_DEFAULT).value;
    var comf := Reading(FieldOr(fields, "comfT", Null), COMFORT_DEFAULT).value;
    assert Setpoints(s0, fields) == Current(s0.(frostT := frost, saveT := save, comfT := comf), fields);
  }

  /**
   * A mode that `int` cannot parse leaves the work mode as it was and sets
   * the current temperature to 0, whatever the room reported.
   */
  lemma BadModeZeroesTemperature(before: Snapshot, data: Value, clock: Clock)
    requires Valid(clock) && ConfirmedData(data) && Typed(data.fields)
    requires ToInt(FieldOr(data.fields, "mode", Null)).ValueError?
    ensures var after := Refresh(before, data, clock).0;
      after.currentTemp == 0.0 && after.currentState == before.currentState
  {
    ConfirmedTakesAll(before, data, clock);
  }

  /**
   * The battery reading is the truthiness of `bat`, defaulting to the
   * string "0": an absent battery, or the string "0", reads as true.
   */
  lemma BatteryIsTruthiness(before: Snapshot, data: Value, clock: Clock)
    requires Valid(clock) && ConfirmedData(data)
    ensures var after := Refresh(before, data, clock).0;
      after.battery == Bool(Truthy(FieldOr(data.fields, "bat", Str("0"))))
      && ("bat" !in data.fields || data.fields["bat"] == Str("0") ==> after.battery == Bool(true))
  {
  }

  /**
   * A frost temperature that is absent or null raises TypeError: the poll
   * stops after the schedule mark and the battery, keeping every other
   * reading as it was.
   */
  lemma MissingFrostStopsPoll(before: Snapshot, data: Value, clock: Clock)
    requires Valid(clock) && ConfirmedData(data)
    requires FieldOr(data.fields, "frostT", Null) == Null
    ensures Refresh(before, data, clock) ==
      (before.(tempSetMark := Mark(data.fields, clock),
               battery := Bool(Truthy(FieldOr(data.fields, "bat", Str("0"))))), true)
  {
  }

  /**
   * Temperatures the cloud sends as decimal text with one digit after the
   * point, and a work mode sent as a number, are read back exactly.
   */
  lemma ReadsTenthsBack(before: Snapshot, data: Value, clock: Clock, frost: int, save: int, comf: int, temp: int, mode: int)
    requires Valid(clock) && ConfirmedData(data)
    requires FieldOr(data.fields, "frostT", Null) == Str(Tenths.TenthsToString(frost))
    requires FieldOr(data.fields, "saveT", Null) == Str(Tenths.TenthsToString(save))
    requires FieldOr(data.fields, "comfT", Null) == Str(Tenths.TenthsToString(comf))
    requires FieldOr(data.fields, "tempNow", Null) == Str(Tenths.TenthsToString(temp))
    requires FieldOr(data.fields, "mode", Null) == Num(mode)
    ensures var (after, raised) := Refresh(before, data, clock);
      !raised
      && after.frostT == frost as real / 10.0 && after.saveT == save as real / 10.0
      && after.comfT == comf as real / 10.0 && after.currentTemp == temp as real / 10.0
      && after.currentState == mode
  {
    FloatOfTenths(frost);
    FloatOfTenths(save);
    FloatOfTenths(comf);
    FloatOfTenths(temp);
  }

  // ---------------------------------------------------------------------------
  // Setpoint writes
  // ---------------------------------------------------------------------------

  /** A setpoint argument that Python treats as false: absent (None) or zero. */
  predicate Falsy(tenths: Option<int>) {
    tenths.None? || tenths.value == 0
  }

  /**
   * One setpoint of `set_temperature`: written to `endpoint` when it is
   * given and not zero; whether the write raised.
   */
  function WriteIfGiven(s: State, room: string, tenths: Option<int>, endpoint: TempEndpoint,
                        fahToCent: int -> int, now: int): (State, bool)
  {
    if !Falsy(tenths) then
      var (t, r) := SetRoomTemp(s, room, tenths.value, endpoint, fahToCent, now);
      (t, r.Threw?)
    else (s, false)
  }

  /**
   * `set_temperature`: the temperature and the high setpoint are written as
   * comfort temperatures, the low one as the economy temperature, in that
   * order; an exception stops the rest.
   */
  function SetTemperatures(s: State, room: string, temperature: Option<int>, high: Option<int>, low: Option<int>,
                           fahToCent: int -> int, now: int): (State, bool)
  {
    var (s1, raised1) := WriteIfGiven(s, room, temperature, ComfortTemp, fahToCent, now);
    if raised1 then (s1, true)
    else
      var (s2, raised2) := WriteIfGiven(s1, room, high, ComfortTemp, fahToCent, now);
      if raised2 then (s2, true)
      else WriteIfGiven(s2, room, low, EcoTemp, fahToCent, now)
  }

  /** `t` keeps the exchanges of `s` and adds only reads and setpoint writes to the given endpoints. */
  ghost predicate OnlyWritesTo(s: State, t: State, endpoints: set<TempEndpoint>) {
    |s.log| <= |t.log| && t.log[..|s.log|] == s.log
    && forall j :: |s.log| <= j < |t.log| ==>
         IsRead(t.log[j].request) || (t.log[j].request.SetTempReq? && t.log[j].request.endpoint in endpoints)
  }

  lemma OnlyWritesToTrans(s: State, t: State, u: State, e1: set<TempEndpoint>, e2: set<TempEndpoint>)
    requires OnlyWritesTo(s, t, e1) && OnlyWritesTo(t, u, e2)
    ensures OnlyWritesTo(s, u, e1 + e2)
  {
  }

  lemma WriteIfGivenOnlyTo(s: State, room: string, tenths: Option<int>, endpoint: TempEndpoint,
                           fahToCent: int -> int, now: int)
    ensures OnlyWritesTo(s, WriteIfGiven(s, room, tenths, endpoint, fahToCent, now).0, {endpoint})
    ensures Falsy(tenths) ==> WriteIfGiven(s, room, tenths, endpoint, fahToCent, now) == (s, false)
  {
    if !Falsy(tenths) {
      TempWriteOnlyTo(s, room, tenths.value, endpoint, fahToCent, now);
    }
  }

  /**
   * Setting temperatures writes only comfort and economy setpoints, never the
   * room or frost setpoint; without a low setpoint nothing goes to the economy
   * endpoint; setpoints that are all absent or zero send nothing.
   */
  lemma SetTemperaturesEndpoints(s: State, room: string, temperature: Option<int>, high: Option<int>, low: Option<int>,
                                 fahToCent: int -> int, now: int)
    ensures var t := SetTemperatures(s, room, temperature, high, low, fahToCent, now).0;
      OnlyWritesTo(s, t, {ComfortTemp, EcoTemp})
      && (Falsy(low) ==> OnlyWritesTo(s, t, {ComfortTemp}))
      && (Falsy(temperature) && Falsy(high) && Falsy(low) ==> t == s)
  {
    var (s1, raised1) := WriteIfGiven(s, room, temperature, ComfortTemp, fahToCent, now);
    WriteIfGivenOnlyTo(s, room, temperature, ComfortTemp, fahToCent, now);
    var (s2, raised2) := WriteIfGiven(s1, room, high, ComfortTemp, fahToCent, now);
    WriteIfGivenOnlyTo(s1, room, high, ComfortTemp, fahToCent, now);
    var s3 := WriteIfGiven(s2, room, low, EcoTemp, fahToCent, now).0;
    WriteIfGivenOnlyTo(s2, room, low, EcoTemp, fahToCent, now);
    OnlyWritesToTrans(s, s1, s2, {ComfortTemp}, {ComfortTemp});
    OnlyWritesToTrans(s, s2, s3, {ComfortTemp}, {EcoTemp});
    assert {ComfortTemp} + {ComfortTemp} == {ComfortTemp};
    assert {ComfortTemp} + {EcoTemp} == {ComfortTemp, EcoTemp};
    if Falsy(low) {
      assert s3 == s2;
    }
    assert OnlyWritesTo(s, s, {});
    OnlyWritesToTrans(s, s, s1, {}, {ComfortTemp});
    assert {} + {ComfortTemp} == {ComfortTemp, EcoTemp} - {EcoTemp};
  }

  // ---------------------------------------------------------------------------
  // The entity
  // ---------------------------------------------------------------------------

  /** The thermostat of one room, holding its readings and the shared cloud client. */
  class Thermostat {
    const roomName: string
    const cl: Client.Besmart

    var tempSetMark: Value
    var battery: Value
    var frostT: real
    var saveT: real
    var comfT: real
    var currentTemp: real
    var heating: bool
    var currentState: int
    var currentUnit: Value
    var season: Value

    function Snap(): Snapshot
      reads this
    {
      Snapshot(tempSetMark, battery, frostT, saveT, comfT, currentTemp, heating, currentState, currentUnit, season)
    }

    /** A new thermostat polls its room once. */
    constructor(roomName: string, cl: Client.Besmart, now: int, clock: Clock)
      requires Valid(clock)
      modifies cl
      ensures this.roomName == roomName && this.cl == cl
      ensures var (s, data) := Session.RoomByName(old(cl.State()), roomName, now);
        cl.State() == s && Snap() == Refresh(INITIAL, data, clock).0
    {
      this.roomName := roomName;
      this.cl := cl;
      tempSetMark := INITIAL.tempSetMark;
      battery := INITIAL.battery;
      frostT := INITIAL.frostT;
      saveT := INITIAL.saveT;
      comfT := INITIAL.comfT;
      currentTemp := INITIAL.currentTemp;
      heating := INITIAL.heating;
      currentState := INITIAL.currentState;
      currentUnit := INITIAL.currentUnit;
      season := INITIAL.season;
      new;
      var _ := Update(now, clock);
    }

    /** `update`: look the room up and take its readings; whether an exception escaped. */
    method Update(now: int, clock: Clock) returns (raised: bool)
      requires Valid(clock)
      modifies this, cl
      ensures var (s, data) := Session.RoomByName(old(cl.State()), roomName, now);
        cl.State() == s && (Snap(), raised) == Refresh(old(Snap()), data, clock)
    {
      var data := cl.RoomByName(roomName, now);
      raised := Take(data, clock);
    }

    /** The readings taken from the room data of one poll. */
    method Take(data: Value, clock: Clock) returns (raised: bool)
      requires Valid(clock)
      modifies this
      ensures (Snap(), raised) == Refresh(old(Snap()), data, clock)
    {
      raised := false;
      if !Truthy(data) {
        return;
      }
      var error := Get(data, "error");
      if error.None? {
        return true;
      }
      if !EqualsInt(error.value, READ_CONFIRMED) {
        return;
      }
      raised := TakeConfirmed(data.fields, clock);
    }

    /** The readings taken from a confirmed room record, stopping where a conversion raises TypeError. */
    method TakeConfirmed(fields: map<string, Value>, clock: Clock) returns (raised: bool)
      requires Valid(clock)
      modifies this
      ensures (Snap(), raised) == Apply(old(Snap()), fields, clock)
    {
      tempSetMark := Mark(fields, clock);
      battery := Bool(Truthy(FieldOr(fields, "bat", Str("0"))));
      raised := TakeSetpoints(fields);
    }

    method TakeSetpoints(fields: map<string, Value>) returns (raised: bool)
      modifies this
      ensures (Snap(), raised) == Setpoints(old(Snap()), fields)
    {
      raised := true;
      var frost := Reading(FieldOr(fields, "frostT", Null), FROST_DEFAULT);
      if frost.None? {
        return;
      }
      frostT := frost.value;
      var save := Reading(FieldOr(fields, "saveT", Null), SAVE_DEFAULT);
      if save.None? {
        return;
      }
      saveT := save.value;
      var comf := Reading(FieldOr(fields, "comfT", Null), COMFORT_DEFAULT);
      if comf.None? {
        return;
      }
      comfT := comf.value;
      raised := TakeCurrent(fields);
    }

    method TakeCurrent(fields: map<string, Value>) returns (raised: bool)
      modifies this
      ensures (Snap(), raised) == Current(old(Snap()), fields)
    {
      raised := true;
      var temp := Reading(FieldOr(fields, "tempNow", Null), TEMP_NOW_DEFAULT);
      if temp.None? {
        return;
      }
      currentTemp := temp.value;
      heating := FieldOr(fields, "heating", Str("")) == Str("1");
      match ToInt(FieldOr(fields, "mode", Null)) {
        case TypeError =>
          return;
        case ValueError =>
          currentTemp := 0.0;
        case Converted(mode) =>
          currentState := mode;
      }
      currentUnit := FieldOr(fields, "tempUnit", Null);
      season := FieldOr(fields, "season", Null);
      raised := false;
    }

    /** `set_preset_mode`: ask for the preset's work mode; whether an exception escaped. */
    method SetPresetMode(preset: string, now: int) returns (raised: bool)
      modifies cl
      ensures var (s, r) := Session.SetRoomMode(old(cl.State()), roomName, PresetMode(preset), now);
        cl.State() == s && raised == r.Threw?
    {
      var r := cl.SetRoomMode(roomName, PresetMode(preset), now);
      raised := r.Threw?;
    }

    /** `set_hvac_mode`: write the season the mode asks for; whether an exception escaped. */
    method SetHvacMode(mode: HvacMode, now: int) returns (raised: bool)
      modifies cl
      ensures var (s, r) := Session.SetSettings(old(cl.State()), roomName, SeasonFor(mode), now);
        cl.State() == s && raised == r.Threw?
    {
      var r := cl.SetSettings(roomName, SeasonFor(mode), now);
      raised := r.Threw?;
    }

    /** `set_temperature`, with setpoints in tenths of a degree; whether an exception escaped. */
    method SetTemperature(temperature: Option<int>, high: Option<int>, low: Option<int>, fahToCent: int -> int, now: int)
      returns (raised: bool)
      modifies cl
      ensures (cl.State(), raised) == SetTemperatures(old(cl.State()), roomName, temperature, high, low, fahToCent, now)
    {
      raised := false;
      if !Falsy(temperature) {
        var r := cl.SetRoomTemp(roomName, temperature.value, ComfortTemp, fahToCent, now);
        if r.Threw? {
          return true;
        }
      }
      if !Falsy(high) {
        var r := cl.SetRoomTemp(roomName, high.value, ComfortTemp, fahToCent, now);
        if r.Threw? {
          return true;
        }
      }
      if !Falsy(low) {
        var r := cl.SetRoomTemp(roomName, low.value, EcoTemp, fahToCent, now);
        raised := r.Threw?;
      }
    }
  }
}
